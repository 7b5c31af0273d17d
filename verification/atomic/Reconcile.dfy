/** What is pending, and whether an asset is to be published (app/atomic_reconcile.py). */
module Reconcile {
  import opened Wrappers
  import opened RevisionKeys
  import opened CompareWrites
  import opened Watermarks

  // ---- Pending sources ----

  datatype Pending = NotInPresent | DbAhead | NotPendingCurrent | NotPendingDbAbsent | Structural

  function PendingOf(db: map<FxSource, Revision>, current: Option<Watermark>, s: FxSource): Pending {
    if s !in db then NotPendingDbAbsent
    else if current.None? || s !in current.value.content.vector then NotInPresent
    else match Parse(current.value.content.vector[s])
      case None => Structural
      case Some(r) => if Before(r, db[s]) then DbAhead else NotPendingCurrent
  }

  method DerivePending(db: map<FxSource, Revision>, current: Option<Watermark>, membership: set<FxSource>)
    returns (result: map<FxSource, Pending>)
    ensures result.Keys == membership
    ensures forall s :: s in membership ==> result[s] == PendingOf(db, current, s)
  {
    result := map[];
    var rest := membership;
    while rest != {}
      invariant rest <= membership && result.Keys == membership - rest
      invariant forall s :: s in result ==> result[s] == PendingOf(db, current, s)
      decreases |rest|
    {
      var s: FxSource :| s in rest;
      rest := rest - {s};
      result := result[s := PendingOf(db, current, s)];
    }
  }

  /** Of a watermark that carries proper keys, a source is pending exactly when its database revision has a key that is
      newer than the published one, or is not published at all. */
  lemma PendingIsKeyOrder(db: map<FxSource, Revision>, current: Watermark, s: FxSource, published: Revision)
    requires s in db && InRange(db[s]) && InRange(published)
    requires s in current.content.vector && current.content.vector[s] == KeyOf(published)
    ensures PendingOf(db, Some(current), s) == DbAhead <==> Less(current.content.vector[s], KeyOf(db[s]))
    ensures PendingOf(db, Some(current), s) in {DbAhead, NotPendingCurrent}
  {
    ParseOfMake(published);
    KeyOrder(published, db[s]);
  }

  // ---- The decision ----

  /** What the loader built, and what was found out about it. */
  datatype Build = Build(
    malformed: bool, present: set<FxSource>, missing: set<FxSource>, membership: nat,
    effective: map<FxSource, string>, outcomes: map<FxSource, Disposition>, subscribers: nat)

  datatype Decision = Publish(content: Content) | SkipDedup | SkipSubscriberZero | Block | RetryBuild

  /** A watermark only takes proper keys, and no source twice. */
  predicate Acceptable(c: Content) {
    (forall s :: s in c.vector ==> Parse(c.vector[s]).Some?) && c.vector.Keys !! c.missing
  }

  function CandidateOf(b: Build): Content { Content(b.effective, b.missing, b.membership) }

  /** The decision, or nothing where the source raises an error. */
  function Decide(current: Option<Watermark>, b: Build): Option<Decision> {
    var blocked := exists s :: s in b.outcomes && b.outcomes[s] == BlockAlert;
    if b.malformed then Some(if blocked then Block else RetryBuild)
    else if b.outcomes.Keys != b.present || b.effective.Keys != b.present then None
    else if blocked then Some(Block)
    else if exists s :: s in b.outcomes && b.outcomes[s] == Retry then Some(RetryBuild)
    else if b.subscribers == 0 then Some(SkipSubscriberZero)
    else if !Acceptable(CandidateOf(b)) then None
    else if current.Some? && current.value.content == CandidateOf(b) then Some(SkipDedup)
    else Some(Publish(CandidateOf(b)))
  }

  /** Publishing is decided exactly when every source that was built may be published, somebody listens, and the content
      is not the stored one; then the content covers exactly the sources that were built. */
  lemma PublishesExactlyWhen(current: Option<Watermark>, b: Build)
    ensures Decide(current, b) == Some(Publish(CandidateOf(b)))
            <==> && !b.malformed && b.outcomes.Keys == b.present && b.effective.Keys == b.present
                 && (forall s :: s in b.present ==> b.outcomes[s] == PublishCandidate)
                 && b.subscribers > 0 && Acceptable(CandidateOf(b))
                 && (current.Some? ==> current.value.content != CandidateOf(b))
    ensures forall c :: Decide(current, b) == Some(Publish(c)) ==> c == CandidateOf(b) && c.vector.Keys == b.present
  {
    if !b.malformed && b.outcomes.Keys == b.present {
      forall s | s in b.present && b.outcomes[s] != PublishCandidate
        ensures b.outcomes[s] == BlockAlert || b.outcomes[s] == Retry
      {
      }
    }
  }

  /** The stand-in provider of write outcomes fails every source: with any source present, nothing is published. */
  lemma StandInPublishesOnlyNothing(current: Option<Watermark>, b: Build)
    requires !b.malformed && forall s :: s in b.outcomes ==> b.outcomes[s] == Retry
    ensures Decide(current, b).Some? && Decide(current, b).value.Publish? ==> b.present == {}
  {
    if b.present != {} && b.outcomes.Keys == b.present {
      var s :| s in b.present;
      assert s in b.outcomes && b.outcomes[s] == Retry;
    }
  }
}
