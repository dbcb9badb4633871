/** The names of the logs directory: rotated names carry twenty decimal digits, and nothing else reads as one. */
module LogFileNames {
  import opened Common
  import opened Decimals

  const CURRENT_NAME: string := "structured-log.current.jsonl"
  const STAGING_NAME: string := ".structured-log.next.tmp"
  const LOCK_NAME: string := "structured-log.lock"
  const ROTATED_PREFIX: string := "structured-log."
  const ROTATED_SUFFIX: string := ".jsonl"
  const SEQUENCE_DIGITS: nat := 20

  /** `_rotated_name`. */
  function RotatedName(sequence: nat): string
    requires sequence < Pow10(SEQUENCE_DIGITS)
  {
    ROTATED_PREFIX + Pad(sequence, SEQUENCE_DIGITS) + ROTATED_SUFFIX
  }

  predicate EndsWith(s: string, suffix: string) { |suffix| <= |s| && s[|s| - |suffix|..] == suffix }

  /** `_sequence_from_name`. */
  function SequenceFromName(name: string): Option<nat> {
    if !(ROTATED_PREFIX <= name && EndsWith(name, ROTATED_SUFFIX)) || |name| < |ROTATED_PREFIX| + |ROTATED_SUFFIX| then None
    else
      var stem := name[|ROTATED_PREFIX|..|name| - |ROTATED_SUFFIX|];
      if stem == "current" || |stem| != SEQUENCE_DIGITS || !AllDigits(stem) then None
      else Some(Value(stem))
  }

  /** A name reads as a sequence exactly when it is that sequence's rotated name. */
  lemma RotatedNamesExactly(name: string, sequence: nat)
    requires sequence < Pow10(SEQUENCE_DIGITS)
    ensures SequenceFromName(name) == Some(sequence) <==> name == RotatedName(sequence)
  {
    hide Pad, Value, AllDigits, Pow10;
    ValueOfPad(sequence, SEQUENCE_DIGITS);
    var stem := Pad(sequence, SEQUENCE_DIGITS);
    if name == RotatedName(sequence) {
      assert name[|ROTATED_PREFIX|..|name| - |ROTATED_SUFFIX|] == stem;
    }
    if SequenceFromName(name) == Some(sequence) {
      var mine := name[|ROTATED_PREFIX|..|name| - |ROTATED_SUFFIX|];
      PadOfValue(mine);
      assert name == ROTATED_PREFIX + mine + ROTATED_SUFFIX;
    }
  }

  /** A rotation's name holds the twenty digits whose value is its sequence. */
  lemma RotatedNameSpelled(name: string, sequence: nat)
    requires sequence < Pow10(SEQUENCE_DIGITS)
    ensures name == RotatedName(sequence) <==> exists digits ::
      |digits| == 20 && AllDigits(digits) && Value(digits) == sequence && name == "structured-log." + digits + ".jsonl"
  {
    hide Pad, Value, AllDigits;
    ValueOfPad(sequence, SEQUENCE_DIGITS);
    forall digits | |digits| == 20 && AllDigits(digits) && Value(digits) == sequence
      ensures digits == Pad(sequence, SEQUENCE_DIGITS)
    {
      PadOfValue(digits);
    }
  }

  /** The other names of the directory are no rotations. */
  lemma OtherNamesAreNotRotated()
    ensures SequenceFromName(CURRENT_NAME) == None && SequenceFromName(STAGING_NAME) == None
    ensures SequenceFromName(LOCK_NAME) == None
  {
  }
}
