/**
 * Sequence numbers: the 8-bit outgoing counter and the two acceptance
 * rules the receivers apply to an incoming number.
 */
module Sequencing {
  import opened Wire

  /** The value of a byte counter after `SequenceNumber++`: wraps from 255 to 0. */
  function Next(s: byte): (r: byte)
    ensures s < 255 ==> r == s + 1
    ensures s == 255 ==> r == 0
  {
    (s + 1) % 256
  }

  /** The counter after `n` post-increments. */
  function Advance(s: byte, n: nat): byte
  {
    if n == 0 then s else Next(Advance(s, n - 1))
  }

  /**
   * The acceptance rule of the UDP service and of the protocol handler:
   * a number above the last one, or a small number (at most 10) after a
   * large one (at least 245), taken as a wrap-around.
   */
  predicate WindowAccepts(last: byte, s: byte)
    ensures WindowAccepts(last, s) ==> s != last
    ensures last < 245 ==> (WindowAccepts(last, s) <==> s > last)
    ensures last >= 245 ==> (WindowAccepts(last, s) <==> s > last || s <= 10)
  {
    s > last || (last >= 245 && s <= 10)
  }

  /**
   * The acceptance rule of the application protocol service: a number above
   * the last one, or one whose distance behind it, `(byte)(last - s)`, is
   * below 127.
   */
  predicate DistanceAccepts(last: byte, s: byte)
    ensures s == last ==> DistanceAccepts(last, s)
    ensures s <= last ==> (DistanceAccepts(last, s) <==> last - s < 127)
  {
    s > last || Truncate8(last - s) < 127
  }

  /** Below the last number the byte cast changes nothing: the rule accepts the last number and the 126 before it. */
  lemma DistanceAcceptsBehind(last: byte, s: byte)
    ensures DistanceAccepts(last, s) <==> s > last || last - s < 127
  {
  }

  /** The distance rule accepts a repeated number. */
  lemma DistanceAcceptsRepeat(last: byte)
    ensures DistanceAccepts(last, last)
  {
  }

  /** The window rule never accepts a repeated number. */
  lemma WindowRejectsRepeat(last: byte)
    ensures !WindowAccepts(last, last)
  {
  }

  /** From the initial last number 255 the window rule accepts exactly 0..10. */
  lemma WindowFromInitial(s: byte)
    ensures WindowAccepts(255, s) <==> s <= 10
  {
  }

  /** From the initial last number 255 the distance rule accepts exactly 129..255. */
  lemma DistanceFromInitial(s: byte)
    ensures DistanceAccepts(255, s) <==> s >= 129
  {
  }

  /** The examples for a last number of 250: 251 and 5 pass, 11 and 200 do not. */
  lemma WindowExamples()
    ensures WindowAccepts(250, 251) && WindowAccepts(250, 5)
    ensures !WindowAccepts(250, 11) && !WindowAccepts(250, 200)
  {
  }

  /** Post-incrementing `m` times and then `n` times is post-incrementing `m + n` times. */
  lemma {:induction false} AdvanceAdd(s: byte, m: nat, n: nat)
    ensures Advance(Advance(s, m), n) == Advance(s, m + n)
  {
    if n > 0 {
      AdvanceAdd(s, m, n - 1);
    }
  }

  /** One post-increment of a residue is the residue of the successor. */
  lemma NextOfResidue(x: nat)
    ensures Next(x % 256) == (x + 1) % 256
  {
    var q, r := x / 256, x % 256;
    assert x == 256 * q + r;
    if r < 255 {
      assert x + 1 == 256 * q + (r + 1);
    } else {
      assert x + 1 == 256 * (q + 1);
    }
  }

  /** `n` post-increments add `n` modulo 256. */
  lemma {:induction false} AdvanceIsModular(s: byte, n: nat)
    ensures Advance(s, n) == (s + n) % 256
  {
    if n > 0 {
      var x: nat := s + n - 1;
      AdvanceIsModular(s, n - 1);
      assert Advance(s, n) == Next(Advance(s, n - 1));
      NextOfResidue(x);
    }
  }

  /** After 256 packets the counter is back where it started: a sequence number is reused only after wrap-around. */
  lemma AdvanceFullCycle(s: byte, n: nat)
    ensures Advance(s, n + 256) == Advance(s, n)
  {
    var t := Advance(s, n);
    AdvanceIsModular(t, 256);
    assert (t as int + 256) % 256 == t;
    AdvanceAdd(s, n, 256);
  }

  /** Fewer than 256 packets never bring the counter back to its starting value. */
  lemma AdvanceNoEarlyRepeat(s: byte, n: nat)
    requires 0 < n < 256
    ensures Advance(s, n) != s
  {
    AdvanceIsModular(s, n);
  }
}
