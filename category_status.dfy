/**
 * The status line of a device category ("Fans", "Lights", "All"): a text, a colour
 * and which of the two master buttons ("turn on", "turn off") stay visible.
 */
module CategoryStatus {

  datatype Status = Unknown | On | Mixed | Off

  datatype Color = Gray | Green | Orange

  /** The master buttons left visible: both, only "turn on", or only "turn off". */
  datatype Buttons = Both | OnlyOn | OnlyOff

  datatype Classification = Classification(status: Status, color: Color, buttons: Buttons)

  /** Python's `all` over a list of booleans. */
  function All(states: seq<bool>): (r: bool)
    ensures r <==> false !in states
  {
    if states == [] then true else states[0] && All(states[1..])
  }

  /** Python's `any` over a list of booleans. */
  function Any(states: seq<bool>): (r: bool)
    ensures r <==> true in states
  {
    if states == [] then false else states[0] || Any(states[1..])
  }

  /**
   * `update_category_status`: an empty list is Unknown, a list of only true values
   * is On, a list holding both values is Mixed, a list of only false values is Off.
   * On hides the "turn on" button, Off hides the "turn off" button, the others show both.
   */
  function Classify(states: seq<bool>): (c: Classification)
    ensures c.status == Unknown <==> |states| == 0
    ensures c.status == On <==> |states| > 0 && forall i :: 0 <= i < |states| ==> states[i]
    ensures c.status == Mixed <==> (exists i :: 0 <= i < |states| && states[i]) && (exists j :: 0 <= j < |states| && !states[j])
    ensures c.status == Off <==> |states| > 0 && forall i :: 0 <= i < |states| ==> !states[i]
    ensures c.color == Green <==> c.status == On
    ensures c.color == Orange <==> c.status == Mixed
    ensures c.buttons == OnlyOff <==> c.status == On
    ensures c.buttons == OnlyOn <==> c.status == Off
  {
    if states == [] then Classification(Unknown, Gray, Both)
    else if All(states) then Classification(On, Green, OnlyOff)
    else if Any(states) then Classification(Mixed, Orange, Both)
    else Classification(Off, Gray, OnlyOn)
  }

  /** The classification depends only on how many true and false values there are, not on their order. */
  lemma ClassifyIgnoresOrder(a: seq<bool>, b: seq<bool>)
    requires multiset(a) == multiset(b)
    ensures Classify(a) == Classify(b)
  {
    assert true in a <==> true in multiset(a);
    assert false in a <==> false in multiset(a);
    assert true in b <==> true in multiset(b);
    assert false in b <==> false in multiset(b);
    assert |a| == |multiset(a)| && |b| == |multiset(b)|;
  }

  /** How the "All" status follows from the statuses of two parts of a list. */
  function Combine(x: Status, y: Status): Status {
    if x == Unknown then y
    else if y == Unknown then x
    else if x == y then x
    else Mixed
  }

  /** Classifying a concatenation is combining the classifications of its two parts. */
  lemma ClassifyAppend(a: seq<bool>, b: seq<bool>)
    ensures Classify(a + b).status == Combine(Classify(a).status, Classify(b).status)
  {
    assert forall x :: x in a + b <==> x in a || x in b;
  }
}
