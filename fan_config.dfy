/** The per-name normal fan speed and the label of the "normalize" button. */
module FanConfig {

  /** Normal speed, in percent, of a fan whose name marks it as an exhaust fan. */
  const ExhaustSpeed: int := 40

  /** Normal speed, in percent, of every other fan. */
  const RegularSpeed: int := 45

  /** The marker looked for in the lower-cased name, spelled exactly as the program spells it. */
  const ExhaustMarker: string := "exaust"

  /** The fixed label of the "normalize fan speeds" button. */
  const NormalizeLabel: string := "Normalize (E:40%/F:45%)"

  predicate IsUpper(c: char) {
    'A' <= c <= 'Z'
  }

  /** Lower-casing of one character (ASCII letters only). */
  function LowerChar(c: char): char {
    if IsUpper(c) then (c as int + 32) as char else c
  }

  /** `str.lower()`: every upper-case letter replaced by its lower-case form, nothing else touched. */
  function Lower(s: string): (r: string)
    ensures |r| == |s|
    ensures forall i :: 0 <= i < |s| ==> r[i] == LowerChar(s[i])
    ensures forall i :: 0 <= i < |s| ==> !IsUpper(r[i])
  {
    if s == [] then [] else [LowerChar(s[0])] + Lower(s[1..])
  }

  /** `sub` occurs in `s` starting at index `i`. */
  predicate OccursAt(s: string, sub: string, i: nat) {
    i + |sub| <= |s| && s[i..i + |sub|] == sub
  }

  /** The `in` operator on strings: `sub` occurs somewhere in `s`. */
  predicate Contains(s: string, sub: string) {
    exists i: nat :: i <= |s| && OccursAt(s, sub, i)
  }

  /** `get_normal_speed`: 40 for a name whose lower-cased form contains "exaust", 45 otherwise. */
  function GetNormalSpeed(name: string): (r: int)
    ensures r == ExhaustSpeed || r == RegularSpeed
    ensures r == ExhaustSpeed <==> Contains(Lower(name), ExhaustMarker)
  {
    if Contains(Lower(name), ExhaustMarker) then ExhaustSpeed else RegularSpeed
  }

  /** `get_normalize_display_text`: the fixed label of the normalize button. */
  function GetNormalizeDisplayText(): (r: string)
    ensures r == NormalizeLabel
  {
    NormalizeLabel
  }

  /** Lower-casing twice is lower-casing once. */
  lemma {:induction false} LowerIdempotent(s: string)
    ensures Lower(Lower(s)) == Lower(s)
  {
    var l := Lower(s);
    assert forall i :: 0 <= i < |l| ==> LowerChar(l[i]) == l[i];
  }

  /** The speed does not depend on the letter case of the name. */
  lemma NormalSpeedIgnoresCase(name: string)
    ensures GetNormalSpeed(Lower(name)) == GetNormalSpeed(name)
  {
    LowerIdempotent(name);
  }

  /** A name marked with the program's spelling gets the exhaust speed, in any letter case. */
  lemma MisspelledMarkerGetsExhaustSpeed(prefix: string, suffix: string)
    ensures GetNormalSpeed(prefix + "EXAUST" + suffix) == ExhaustSpeed
    ensures GetNormalSpeed(prefix + "exaust" + suffix) == ExhaustSpeed
  {
    var i := |prefix|;
    var upper := prefix + "EXAUST" + suffix;
    var lower := prefix + "exaust" + suffix;
    forall j | 0 <= j < 6
      ensures Lower(upper)[i + j] == ExhaustMarker[j] && Lower(lower)[i + j] == ExhaustMarker[j]
    {
      assert upper[i + j] == "EXAUST"[j] && lower[i + j] == "exaust"[j];
    }
    assert OccursAt(Lower(upper), ExhaustMarker, i);
    assert OccursAt(Lower(lower), ExhaustMarker, i);
  }

  /** The correct spelling "exhaust" does not contain the marker "exaust". */
  lemma CorrectSpellingLacksMarker()
    ensures !Contains("exhaust", ExhaustMarker)
  {
    var w := "exhaust";
    forall i: nat | i + 6 <= |w|
      ensures !OccursAt(w, ExhaustMarker, i)
    {
      assert w[i..i + 6][0] != 'e' || w[i..i + 6][2] != 'a';
    }
  }

  /**
   * A name in which no letter "e" (either case) is followed, two places later, by
   * an "a" (either case) cannot contain the marker, so it gets the regular speed.
   */
  lemma RegularSpeedWithoutMarker(name: string)
    requires forall i :: 0 <= i < |name| - 2 ==> LowerChar(name[i]) != 'e' || LowerChar(name[i + 2]) != 'a'
    ensures GetNormalSpeed(name) == RegularSpeed
  {
    var l := Lower(name);
    forall i: nat | i + 6 <= |l|
      ensures !OccursAt(l, ExhaustMarker, i)
    {
      assert l[i..i + 6][0] == l[i] && l[i..i + 6][2] == l[i + 2];
    }
  }

  /** Hence a fan named "Exhaust Fan 1" runs at the regular speed, 45. */
  lemma ExhaustFanOneGetsRegularSpeed()
    ensures GetNormalSpeed("Exhaust Fan 1") == RegularSpeed
  {
    var n := "Exhaust Fan 1";
    forall i | 0 <= i < |n| - 2
      ensures LowerChar(n[i]) != 'e' || LowerChar(n[i + 2]) != 'a'
    {
      assert i == 0 || n[i] !in "Ee";
    }
    RegularSpeedWithoutMarker(n);
  }

  /** A fan named "Fan 2" runs at the regular speed too. */
  lemma FanTwoGetsRegularSpeed()
    ensures GetNormalSpeed("Fan 2") == RegularSpeed
  {
    assert Lower("Fan 2") == "fan 2";
  }
}
