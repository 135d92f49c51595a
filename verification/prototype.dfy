/** The prototype program (`main.go`): subscriptions are handled one after another in
    load order; each gets the preference-only query and then, whatever it matched,
    its watermark stamped and saved. A failed query or save panics and ends the run
    on the spot. Mail sending is still a placeholder there and is not part of it. */
module Prototype {
  import opened Criteria
  import opened External

  /** What the database calls return for one subscription, and the clock reading
      used for its new watermark. */
  datatype Effects = Effects(selection: Selection, persistence: Persistence, now: int)

  /** The subscription is handled without a panic. */
  predicate Succeeds(fx: Effects)
  {
    fx.selection.Matched? && fx.persistence.Saved?
  }

  /** Either every subscription was handled, or the run panicked while handling the
      one at index `at`. */
  datatype Ending = Finished | Panicked(at: nat)

  /** How many subscriptions were handled completely. */
  function Handled(e: Ending, n: nat): nat
  {
    match e
    case Finished => n
    case Panicked(at) => at
  }

  /** The loop of `main`; `stored` is every subscription row as the database holds it
      afterwards. The query issued for each subscription is `BuildPrototype` of it. */
  method RunPrototype(subs: seq<Subscription>, effects: seq<Effects>)
    returns (ending: Ending, stored: seq<Subscription>)
    requires |effects| == |subs|
    ensures ending.Finished? <==> forall i :: 0 <= i < |subs| ==> Succeeds(effects[i])
    ensures ending.Panicked? ==>
      && ending.at < |subs|
      && !Succeeds(effects[ending.at])
      && (forall i :: 0 <= i < ending.at ==> Succeeds(effects[i]))
    ensures |stored| == |subs|
    ensures forall i :: 0 <= i < |subs| ==>
      stored[i] == if i < Handled(ending, |subs|) then subs[i].(published := effects[i].now) else subs[i]
  {
    stored := subs;
    var i := 0;
    while i < |subs|
      invariant 0 <= i <= |subs|
      invariant |stored| == |subs|
      invariant forall j :: 0 <= j < i ==> Succeeds(effects[j])
      invariant forall j :: 0 <= j < |subs| ==>
        stored[j] == if j < i then subs[j].(published := effects[j].now) else subs[j]
    {
      var sub := subs[i];
      if effects[i].selection.SelectionFailed? {
        return Panicked(i), stored;
      }
      sub := sub.(published := effects[i].now);
      if effects[i].persistence.SaveFailed? {
        return Panicked(i), stored;
      }
      stored := stored[i := sub];
      i := i + 1;
    }
    ending := Finished;
  }
}
