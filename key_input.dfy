/**
 * What both car pages derive from the set of pressed keys: the lower-cased
 * key an event adds, the colour of an arrow, the keys a tilt stands for, and
 * (on the server page) the direction character sent to the car.
 */
module KeyInput {

  const Up: string := "w"
  const Left: string := "a"
  const Down: string := "s"
  const Right: string := "d"

  /** The four keys that steer. */
  const SteeringKeys: set<string> := {Up, Left, Down, Right}

  predicate IsUpper(c: char) {
    'A' <= c <= 'Z'
  }

  /** One character of `string.ToLower()`, for ASCII letters. */
  function LowerChar(c: char): (r: char)
    ensures !IsUpper(r)
    ensures IsUpper(c) ==> r as int == c as int + 32
    ensures !IsUpper(c) ==> r == c
  {
    if IsUpper(c) then (c as int + 32) as char else c
  }

  /** `string.ToLower()`: every upper-case ASCII letter replaced by its lower-case one, every other character kept. */
  function ToLower(s: string): (r: string)
    ensures |r| == |s|
    ensures forall i :: 0 <= i < |s| ==> !IsUpper(r[i])
    ensures forall i :: 0 <= i < |s| && !IsUpper(s[i]) ==> r[i] == s[i]
    ensures forall i :: 0 <= i < |s| && IsUpper(s[i]) ==> r[i] as int == s[i] as int + 32
  {
    seq(|s|, i requires 0 <= i < |s| => LowerChar(s[i]))
  }

  /** Lower-casing twice is lower-casing once. */
  lemma ToLowerIdempotent(s: string)
    ensures ToLower(ToLower(s)) == ToLower(s)
  {
  }

  /** Keys that differ only in the case of their letters are the same key once lower-cased. */
  lemma ToLowerUpperLetter()
    ensures ToLower("W") == ToLower("w") == Up
  {
  }

  /** The colour of the arrow for `key`: green while the key is pressed, black otherwise. */
  function ArrowColor(keys: set<string>, key: string): (color: string)
    ensures color == "green" <==> key in keys
    ensures color == "black" <==> key !in keys
  {
    if key in keys then "green" else "black"
  }

  /**
   * The keys a tilt stands for: forward below 35, backward above 45, left
   * below -5, right above 5, at most one of each opposing pair.
   */
  function TiltKeys(tiltX: real, tiltY: real): (keys: set<string>)
    ensures keys <= SteeringKeys
    ensures Up in keys <==> tiltX < 35.0
    ensures Down in keys <==> tiltX > 45.0
    ensures Left in keys <==> tiltY < -5.0
    ensures Right in keys <==> tiltY > 5.0
    ensures !(Up in keys && Down in keys) && !(Left in keys && Right in keys)
  {
    (if tiltX < 35.0 then {Up} else if tiltX > 45.0 then {Down} else {})
    + (if tiltY < -5.0 then {Left} else if tiltY > 5.0 then {Right} else {})
  }

  /**
   * `GetDirection`: opposing keys cancel, then a diagonal, a single
   * direction or none: B, D, F, H for up-right, down-right, down-left,
   * up-left; A, C, E, G for up, right, down, left; X for none.
   */
  function Direction(keys: set<string>): (c: char)
    ensures c in "ABCDEFGHX"
  {
    var up0, right0, down0, left0 := Up in keys, Right in keys, Down in keys, Left in keys;
    var cancelVertical, cancelHorizontal := up0 && down0, left0 && right0;
    var up, down := up0 && !cancelVertical, down0 && !cancelVertical;
    var left, right := left0 && !cancelHorizontal, right0 && !cancelHorizontal;
    if up && right then 'B'
    else if down && right then 'D'
    else if down && left then 'F'
    else if up && left then 'H'
    else if up then 'A'
    else if right then 'C'
    else if down then 'E'
    else if left then 'G'
    else 'X'
  }

  /** The net forward (+1), backward (-1) or no movement of a set of keys. */
  function Vertical(keys: set<string>): int {
    (if Up in keys then 1 else 0) - (if Down in keys then 1 else 0)
  }

  /** The net right (+1), left (-1) or no movement of a set of keys. */
  function Horizontal(keys: set<string>): int {
    (if Right in keys then 1 else 0) - (if Left in keys then 1 else 0)
  }

  /** The movement a direction character asks of the car: (forward, right), each -1, 0 or 1. */
  function Offset(c: char): (int, int) {
    match c
    case 'A' => (1, 0)
    case 'B' => (1, 1)
    case 'C' => (0, 1)
    case 'D' => (-1, 1)
    case 'E' => (-1, 0)
    case 'F' => (-1, -1)
    case 'G' => (0, -1)
    case 'H' => (1, -1)
    case _ => (0, 0)
  }

  /** The direction sent is the net movement of the pressed keys. */
  lemma DirectionOffset(keys: set<string>)
    ensures Offset(Direction(keys)) == (Vertical(keys), Horizontal(keys))
  {
  }

  /** Two key sets give the same direction exactly when they give the same net movement. */
  lemma DirectionInjective(keys: set<string>, other: set<string>)
    ensures Direction(keys) == Direction(other) <==>
      Vertical(keys) == Vertical(other) && Horizontal(keys) == Horizontal(other)
  {
    DirectionOffset(keys);
    DirectionOffset(other);
  }

  /** Only the four steering keys matter. */
  lemma DirectionOnlySteeringKeys(keys: set<string>)
    ensures Direction(keys) == Direction(keys * SteeringKeys)
  {
    assert (Up in keys * SteeringKeys) == (Up in keys);
    assert (Down in keys * SteeringKeys) == (Down in keys);
    assert (Left in keys * SteeringKeys) == (Left in keys);
    assert (Right in keys * SteeringKeys) == (Right in keys);
  }

  /** With all four keys pressed the opposing pairs cancel. */
  lemma DirectionAllFour()
    ensures Direction(SteeringKeys) == 'X'
  {
  }

  /** The diagonals and the single keys. */
  lemma DirectionTable()
    ensures Direction({Up, Right}) == 'B' && Direction({Down, Right}) == 'D'
    ensures Direction({Down, Left}) == 'F' && Direction({Up, Left}) == 'H'
    ensures Direction({Up}) == 'A' && Direction({Right}) == 'C'
    ensures Direction({Down}) == 'E' && Direction({Left}) == 'G'
    ensures Direction({}) == 'X'
  {
  }
}
