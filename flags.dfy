/**
 * The header's flag byte. The only flag the services use is `ACK_Flag`
 * ("acknowledge this packet"); it is bit 0 of the flag byte.
 */
module HeaderFlags {
  import opened Wire

  datatype Flag = AckFlag

  /** `header.IsFlagSet(flag)`. */
  predicate IsFlagSet(flags: byte, f: Flag) {
    match f
    case AckFlag => flags % 2 == 1
  }

  /** `header.SetFlag(flag)`: turn the flag on and leave every other bit as it was. */
  function SetFlag(flags: byte, f: Flag): (r: byte)
    ensures IsFlagSet(r, f)
    ensures r / 2 == flags / 2
    ensures IsFlagSet(flags, f) ==> r == flags
  {
    if IsFlagSet(flags, f) then flags else flags + 1
  }

  /**
   * The flag byte after `SetFlag` has been applied for every flag of `fs`,
   * in any order: the flags of `fs` are on, everything else is unchanged.
   */
  function WithFlags(flags: byte, fs: set<Flag>): (r: byte)
    ensures forall f :: IsFlagSet(r, f) <==> IsFlagSet(flags, f) || f in fs
    ensures r / 2 == flags / 2
  {
    var r := if AckFlag in fs then SetFlag(flags, AckFlag) else flags;
    assert forall f :: IsFlagSet(r, f) <==> IsFlagSet(flags, f) || f in fs by {
      forall f ensures IsFlagSet(r, f) <==> IsFlagSet(flags, f) || f in fs {
        assert f == AckFlag;
      }
    }
    r
  }

  /** Setting a flag twice is setting it once. */
  lemma SetFlagIdempotent(flags: byte, f: Flag)
    ensures SetFlag(SetFlag(flags, f), f) == SetFlag(flags, f)
  {
  }

  /** The foreach loop over a flag set that calls `SetFlag` for each flag, in whatever order the set yields them. */
  method ApplyFlags(flags: byte, fs: set<Flag>) returns (r: byte)
    ensures r == WithFlags(flags, fs)
  {
    r := flags;
    var rest := fs;
    while rest != {}
      invariant rest <= fs
      invariant r == WithFlags(flags, fs - rest)
      decreases rest
    {
      var f :| f in rest;
      r := SetFlag(r, f);
      rest := rest - {f};
    }
  }
}
