/** What a call of the publish coordinator does and answers, in terms of what its hooks say and of what is stored
    (app/atomic_coordinator.py:264-415). */
module PublishEffects {
  import opened Wrappers
  import opened RevisionKeys
  import opened CompareWrites
  import opened Watermarks
  import opened Reconcile
  import opened Coordinators

  // ---- What a send needs ----

  /** The sources that were built, and what was found out about them, fit together. */
  predicate Coherent(b: Build) {
    b.outcomes.Keys == b.present && b.effective.Keys == b.present
  }

  /** Each source that is present carries a proper key, and none of them is called missing. */
  predicate ProperContent(b: Build) {
    (forall s :: s in b.effective ==> Parse(b.effective[s]).Some?) && b.effective.Keys !! b.missing
  }

  predicate SomeSource(b: Build, d: Disposition) { exists s :: s in b.outcomes && b.outcomes[s] == d }

  predicate EverySource(b: Build, d: Disposition) { forall s :: s in b.outcomes ==> b.outcomes[s] == d }

  function Built(b: Build): Content { Content(b.effective, b.missing, b.membership) }

  predicate IsStored(w: World, a: Asset, content: Content) { a in w.stored && w.stored[a].content == content }

  /** The build may be published, to somebody, and is not what is stored already. */
  predicate Publishable(w: World, a: Asset, b: Build) {
    && !b.malformed && Coherent(b) && EverySource(b, PublishCandidate) && b.subscribers > 0
    && ProperContent(b) && !IsStored(w, a, Built(b))
  }

  /** No marker is held, the gate is open, both flags are on, and the stored watermark and the build were read. */
  predicate Admitted(w: World, a: Asset, h: Hooks) {
    && a !in w.markers && h.gateOpen == Some(true) && h.flags == Some((true, true)) && h.readable && h.build.Some?
  }

  /** A send is made and takes place. */
  predicate Sends(w: World, a: Asset, h: Hooks) {
    Admitted(w, a, h) && Publishable(w, a, h.build.value) && h.send == Sent
  }

  // ---- What a send does ----

  predicate OtherLineage(w: World, a: Asset, l: Lineage) { a in w.stored && w.stored[a].lineage != l }

  /** The number is beyond every number issued for the lineage and beyond the stored one, and the least of these. */
  predicate NextNumber(w: World, a: Asset, l: Lineage, n: nat) {
    && n > LastOf(w.last, a, l)
    && (a in w.stored && w.stored[a].lineage == l ==> n > w.stored[a].number)
    && (n == LastOf(w.last, a, l) + 1 || (a in w.stored && w.stored[a].lineage == l && n == w.stored[a].number + 1))
  }

  function Lost(a: Asset, lost: bool): seq<Entry> { if lost then [LostEntry(a)] else [] }

  /** One number is issued and one send recorded; the watermark is written as far as the store lets it, unless the
      stored one belongs to another lineage; a marker is left exactly if a write was due and is not known to be done. */
  predicate SentAs(w: World, t: World, reply: Reply, a: Asset, h: Hooks)
    requires h.build.Some?
  {
    && |t.issued| == |w.issued| + 1 && t.issued[..|w.issued|] == w.issued
    && SentWatermark(w, t, reply, a, h, t.issued[|w.issued|])
  }

  predicate SentWatermark(w: World, t: World, reply: Reply, a: Asset, h: Hooks, wm: Watermark)
    requires h.build.Some?
  {
    var content := Built(h.build.value);
    var other := OtherLineage(w, a, h.lineage);
    && wm.asset == a && wm.lineage == h.lineage && wm.content == content && wm.sentAt == h.sentAt
    && NextNumber(w, a, h.lineage, wm.number)
    && t.last == w.last[(a, h.lineage) := wm.number]
    && t.history == w.history + Lost(a, h.loss == LostBeforeSend) + [SentEntry(a, content, other)]
                    + Lost(a, h.loss == LostAfterSend)
    && t.written == (if !other && h.fate != NotWritten then w.written + [wm] else w.written)
    && t.stored == (if !other && h.fate != NotWritten then w.stored[a := wm]
                    else if h.loss != NoLoss then w.stored - {a} else w.stored)
    && t.markers == (if !other && h.fate != Written then w.markers[a := wm] else w.markers)
    && reply == Finished(if other then WatermarkLineageMismatch
                         else if h.fate == Written then Committed else WatermarkWriteFailed,
                         Some(if other then LineageMismatch else if a in w.stored then Newer else NoCurrent),
                         true, false)
  }

  lemma CommitSends(w: World, a: Asset, h: Hooks)
    requires Sends(w, a, h)
    ensures SentAs(w, Commit(w, a, h, Built(h.build.value)).0, Commit(w, a, h, Built(h.build.value)).1, a, h)
  {
    var content := Built(h.build.value);
    CommitFields(w, a, h, content);
    CommitHistory(w, a, h, content);
    CommitRelation(w, a, h, content);
    NumberIsNext(w, a, h.lineage);
    hide Assign, LastOf, SentOut, Conclude, Publishable, Parse;
  }

  lemma NumberIsNext(w: World, a: Asset, l: Lineage)
    ensures NextNumber(w, a, l, Assign(w, a, l)) && Assign(w, a, l) > LastOf(w.last, a, l)
  {
  }

  lemma CommitHistory(w: World, a: Asset, h: Hooks, content: Content)
    ensures var wm := NextWatermark(w, a, h, content);
            Commit(w, a, h, content).0.history
            == w.history + Lost(a, h.loss == LostBeforeSend)
               + [SentEntry(a, content, Classify(Current(w, a), wm) == LineageMismatch)]
               + Lost(a, h.loss == LostAfterSend)
  {
    hide Assign, LastOf, Classify, ActionFor;
  }

  // ---- What a call answers ----

  /** What is answered without a send, and without a change of anything, when no marker is held. */
  predicate Refuses(w: World, reply: Reply, a: Asset, h: Hooks) {
    && (reply == Finished(GateWouldBlock, None, false, false) <==> h.gateOpen == Some(false))
    && (reply == Finished(Disabled, None, false, false)
        <==> h.gateOpen == Some(true) && h.flags.Some? && h.flags != Some((true, true)))
    && (reply == Raised
        <==> h.gateOpen == None || (h.gateOpen == Some(true) && h.flags == None)
             || (h.gateOpen == Some(true) && h.flags == Some((true, true)) && (!h.readable || h.build == None))
             || (Admitted(w, a, h) && Unfit(h.build.value)))
    && (Admitted(w, a, h) && !Unfit(h.build.value) ==> RefusesBuild(w, reply, a, h))
  }

  /** A build that is an error to decide on. */
  predicate Unfit(b: Build) {
    && !b.malformed
    && (!Coherent(b) || (EverySource(b, PublishCandidate) && b.subscribers > 0 && !ProperContent(b)))
  }

  predicate RefusesBuild(w: World, reply: Reply, a: Asset, h: Hooks)
    requires h.build.Some?
  {
    var b := h.build.value;
    var may := Publishable(w, a, b);
    && (reply == Relayed(Block) <==> SomeSource(b, BlockAlert))
    && (reply == Relayed(RetryBuild)
        <==> !SomeSource(b, BlockAlert) && (b.malformed || SomeSource(b, Retry)))
    && (reply == Relayed(SkipSubscriberZero)
        <==> !b.malformed && EverySource(b, PublishCandidate) && b.subscribers == 0)
    && (reply == Relayed(SkipDedup)
        <==> !b.malformed && EverySource(b, PublishCandidate) && b.subscribers > 0 && IsStored(w, a, Built(b)))
    && (reply == Finished(NoSubscribersAtSend, None, false, false) <==> may && h.send == NoSubscribers)
    && (reply == Finished(AllSendFailed, None, false, false) <==> may && h.send == AllFailed)
    && (reply == Finished(SendException, None, false, false) <==> may && h.send == SendRaised)
  }

  /** The marker of an earlier send is settled by the watermark alone. */
  predicate Recovers(w: World, t: World, reply: Reply, a: Asset, h: Hooks)
    requires a in w.markers
  {
    var marker := w.markers[a];
    var due := a !in w.stored || w.stored[a] != marker;
    && t.issued == w.issued && t.last == w.last
    && t.history == w.history + Lost(a, h.readable && h.loss != NoLoss)
    && (!h.readable ==> t == w && reply == Raised)
    && (h.readable ==>
          && t.written == (if due && h.fate != NotWritten then w.written + [marker] else w.written)
          && t.stored == (if due && h.fate != NotWritten then w.stored[a := marker]
                          else if h.loss != NoLoss then w.stored - {a} else w.stored)
          && t.markers == (if due && h.fate != Written then w.markers else w.markers - {a})
          && reply == Finished(if due && h.fate != Written then WatermarkWriteFailed else Committed,
                               Some(if a !in w.stored then NoCurrent else if due then Newer else Same), false, true))
  }

  lemma RecoversAll(w: World, a: Asset, h: Hooks)
    requires Inv(w) && a in w.markers
    ensures Recovers(w, Recover(w, a, h).0, Recover(w, a, h).1, a, h)
  {
    hide RecordedOk, IssuedOk, WrittenOk;
    RecoverRelation(w, a);
    RecoverFields(w, a, h);
  }

  lemma DecidesSend(w: World, a: Asset, b: Build)
    ensures Publishable(w, a, b) ==> Decide(Current(w, a), b) == Some(Publish(Built(b)))
    ensures !Publishable(w, a, b) ==> Decide(Current(w, a), b) == None || !Decide(Current(w, a), b).value.Publish?
  {
    PublishesExactlyWhen(Current(w, a), b);
    hide Parse, Decide;
  }

  lemma DecidesOther(w: World, a: Asset, b: Build)
    requires !Publishable(w, a, b)
    ensures Decide(Current(w, a), b) == None <==> Unfit(b)
    ensures var d := Decide(Current(w, a), b);
            !Unfit(b) ==>
              && (d == Some(Block) <==> SomeSource(b, BlockAlert))
              && (d == Some(RetryBuild) <==> !SomeSource(b, BlockAlert) && (b.malformed || SomeSource(b, Retry)))
              && (d == Some(SkipSubscriberZero)
                  <==> !b.malformed && EverySource(b, PublishCandidate) && b.subscribers == 0)
              && (d == Some(SkipDedup)
                  <==> !b.malformed && EverySource(b, PublishCandidate) && b.subscribers > 0
                       && IsStored(w, a, Built(b)))
  {
    hide Parse;
    assert EverySource(b, PublishCandidate) <==> !SomeSource(b, BlockAlert) && !SomeSource(b, Retry);
  }

  /** The reply to a build that is not to be published. */
  function NotPublished(decision: Option<Decision>): Reply {
    if decision == None then Raised else Relayed(decision.value)
  }

  lemma BuildRefused(w: World, a: Asset, h: Hooks)
    requires Admitted(w, a, h) && !Publishable(w, a, h.build.value)
    ensures PublishAsset(w, a, h) == (w, NotPublished(Decide(Current(w, a), h.build.value)))
  {
    DecidesSend(w, a, h.build.value);
    hide Decide, Publishable, Commit;
  }

  lemma BuildRefuses(w: World, a: Asset, h: Hooks)
    requires Admitted(w, a, h) && !Publishable(w, a, h.build.value)
    ensures Refuses(w, NotPublished(Decide(Current(w, a), h.build.value)), a, h)
  {
    DecidesOther(w, a, h.build.value);
    hide Decide, Publishable, Unfit, Current, SomeSource, EverySource, IsStored, Built;
  }

  lemma SendFails(w: World, a: Asset, h: Hooks)
    requires Admitted(w, a, h) && Publishable(w, a, h.build.value) && h.send != Sent
    ensures var (t, reply) := PublishAsset(w, a, h);
            && t == w
            && reply == Finished(if h.send == NoSubscribers then NoSubscribersAtSend
                                 else if h.send == AllFailed then AllSendFailed else SendException, None, false, false)
  {
    DecidesSend(w, a, h.build.value);
    hide Decide, Publishable, Commit;
  }

  lemma SendFailure(w: World, a: Asset, h: Hooks, reply: Reply)
    requires Admitted(w, a, h) && Publishable(w, a, h.build.value) && h.send != Sent
    requires reply == Finished(if h.send == NoSubscribers then NoSubscribersAtSend
                               else if h.send == AllFailed then AllSendFailed else SendException, None, false, false)
    ensures Refuses(w, reply, a, h)
  {
    var b := h.build.value;
    assert !Unfit(b) && !SomeSource(b, BlockAlert) && !SomeSource(b, Retry);
    hide Coherent, ProperContent, Unfit, IsStored, Built, SomeSource, EverySource;
  }

  lemma NotAdmitted(w: World, a: Asset, h: Hooks)
    requires a !in w.markers && !Admitted(w, a, h)
    ensures PublishAsset(w, a, h).0 == w && Refuses(w, PublishAsset(w, a, h).1, a, h)
  {
    hide Decide, Publishable, Commit, Unfit, RefusesBuild;
  }

  lemma CallRefuses(w: World, a: Asset, h: Hooks)
    requires a !in w.markers && !Sends(w, a, h)
    ensures PublishAsset(w, a, h).0 == w && Refuses(w, PublishAsset(w, a, h).1, a, h)
  {
    hide PublishAsset, Publishable, Refuses;
    if !Admitted(w, a, h) {
      NotAdmitted(w, a, h);
    } else if !Publishable(w, a, h.build.value) {
      BuildRefused(w, a, h);
      BuildRefuses(w, a, h);
    } else {
      SendFails(w, a, h);
      SendFailure(w, a, h, PublishAsset(w, a, h).1);
    }
  }

  // ---- Runs ----

  /** In every run, whatever the hooks of the next call answer: it sends and issues a number exactly if no marker is
      held, the gate is open, both flags are on, the read and the build succeed, every source that was built may be
      published, somebody listens, the content is proper and not the stored one, and the send takes place. Otherwise it
      settles a marker, or it leaves the world alone and answers why. */
  lemma SendsExactlyWhen(stored: map<Asset, Watermark>, events: seq<Event>, a: Asset, h: Hooks)
    requires ProperlyKeyed(stored)
    ensures var w := Run(Start(stored), events);
            var (t, reply) := PublishAsset(w, a, h);
            if Sends(w, a, h) then SentAs(w, t, reply, a, h)
            else if a in w.markers then Recovers(w, t, reply, a, h)
            else t == w && Refuses(w, reply, a, h)
  {
    hide Inv, Run, Commit, Recover, Recovers, SentAs, Refuses;
    var w := Run(Start(stored), events);
    RunKeeps(stored, events);
    if a in w.markers {
      RecoversAll(w, a, h);
    } else if Sends(w, a, h) {
      DecidesSend(w, a, h.build.value);
      CommitSends(w, a, h);
    } else {
      CallRefuses(w, a, h);
    }
  }

  // ---- What is to be tried again ----

  /** What is there has been sent and is on record. */
  predicate Settled(w: World, a: Asset, h: Hooks) {
    || (a in w.markers && h.readable && ((a in w.stored && w.stored[a] == w.markers[a]) || h.fate == Written))
    || (Sends(w, a, h) && !OtherLineage(w, a, h.lineage) && h.fate == Written)
    || (Admitted(w, a, h) && !Unfit(h.build.value) && !h.build.value.malformed
        && EverySource(h.build.value, PublishCandidate)
        && h.build.value.subscribers > 0 && IsStored(w, a, Built(h.build.value)))
  }

  /** Something other than the program has to change first: the gate, a flag, or that somebody listens. */
  predicate Waits(w: World, a: Asset, h: Hooks) {
    && a !in w.markers
    && (h.gateOpen == Some(false)
        || (h.gateOpen == Some(true) && h.flags.Some? && h.flags != Some((true, true)))
        || (Admitted(w, a, h) && !Unfit(h.build.value) && !h.build.value.malformed
            && EverySource(h.build.value, PublishCandidate) && h.build.value.subscribers == 0)
        || (Admitted(w, a, h) && Publishable(w, a, h.build.value) && h.send == NoSubscribers))
  }

  /** Nothing was sent, and it may simply be tried again. */
  predicate Retries(w: World, a: Asset, h: Hooks) {
    && Admitted(w, a, h) && !Unfit(h.build.value)
    && ((!SomeSource(h.build.value, BlockAlert) && (h.build.value.malformed || SomeSource(h.build.value, Retry)))
        || (Publishable(w, a, h.build.value) && h.send in {AllFailed, SendRaised}))
  }

  /** A source is in conflict, or the stored watermark belongs to another lineage. */
  predicate Obstructed(w: World, a: Asset, h: Hooks) {
    || (Admitted(w, a, h) && !Unfit(h.build.value) && SomeSource(h.build.value, BlockAlert))
    || (Sends(w, a, h) && OtherLineage(w, a, h.lineage))
  }

  lemma SentLane(w: World, t: World, reply: Reply, a: Asset, h: Hooks)
    requires Sends(w, a, h) && SentAs(w, t, reply, a, h)
    ensures LanesSay(w, reply, a, h)
  {
    hide NextNumber, IsStored, Coherent, ProperContent;
  }

  lemma RecoveredLane(w: World, t: World, reply: Reply, a: Asset, h: Hooks)
    requires a in w.markers && Recovers(w, t, reply, a, h)
    ensures LanesSay(w, reply, a, h)
  {
    hide Publishable, Unfit, SomeSource, EverySource, IsStored;
  }

  lemma RefusedLane(w: World, reply: Reply, a: Asset, h: Hooks)
    requires a !in w.markers && !Sends(w, a, h) && reply == PublishAsset(w, a, h).1 && Refuses(w, reply, a, h)
    ensures LanesSay(w, reply, a, h)
  {
    hide PublishAsset, IsStored, Coherent, ProperContent;
    RepliesWithoutSend(w, a, h);
    if h.gateOpen == None {
      assert reply == Raised;
    } else if !h.gateOpen.value {
      assert h.gateOpen == Some(false);
    } else {
      assert h.gateOpen == Some(true);
      if h.flags.Some? {
        assert h.flags.value == (true, true) || h.flags != Some((true, true));
      }
    }
  }

  /** The lane of a reply says where the asset stands. */
  predicate LanesSay(w: World, reply: Reply, a: Asset, h: Hooks) {
    && (LaneOf(reply) == Some(TerminalNone) <==> Settled(w, a, h))
    && (LaneOf(reply) == Some(EventDrivenWait) <==> Waits(w, a, h))
    && (LaneOf(reply) == Some(SendRetry) <==> Retries(w, a, h))
    && (LaneOf(reply) == Some(Blocked) <==> Obstructed(w, a, h))
    && (LaneOf(reply) == Some(WatermarkOnly)
        <==> || (Sends(w, a, h) && !OtherLineage(w, a, h.lineage) && h.fate != Written)
             || (a in w.markers && h.readable && !(a in w.stored && w.stored[a] == w.markers[a]) && h.fate != Written))
  }

  /** Without a marker and without a send only these answers are left. */
  lemma RepliesWithoutSend(w: World, a: Asset, h: Hooks)
    requires a !in w.markers && !Sends(w, a, h)
    ensures PublishAsset(w, a, h).1 in
            {Raised, Relayed(Block), Relayed(RetryBuild), Relayed(SkipSubscriberZero), Relayed(SkipDedup),
             Finished(GateWouldBlock, None, false, false), Finished(Disabled, None, false, false),
             Finished(NoSubscribersAtSend, None, false, false), Finished(AllSendFailed, None, false, false),
             Finished(SendException, None, false, false)}
  {
    if Admitted(w, a, h) {
      DecidesSend(w, a, h.build.value);
    }
    hide Decide, Publishable, Commit;
  }

  /** In every run the retry lane of a call is terminal exactly if the content is on record, waiting exactly if the
      gate, a flag or the listeners have to change, a new attempt exactly if nothing was sent and nothing forbids it,
      blocked exactly on a conflict or another lineage, and the watermark alone exactly if a send is not on record. */
  lemma LanesExactlyWhen(stored: map<Asset, Watermark>, events: seq<Event>, a: Asset, h: Hooks)
    requires ProperlyKeyed(stored)
    ensures LanesSay(Run(Start(stored), events), PublishAsset(Run(Start(stored), events), a, h).1, a, h)
  {
    hide Run, PublishAsset, SentAs, Recovers, Refuses, LanesSay;
    var w := Run(Start(stored), events);
    SendsExactlyWhen(stored, events, a, h);
    var (t, reply) := PublishAsset(w, a, h);
    if Sends(w, a, h) {
      SentLane(w, t, reply, a, h);
    } else if a in w.markers {
      RecoveredLane(w, t, reply, a, h);
    } else {
      RefusedLane(w, reply, a, h);
    }
  }

  // ---- Which calls have sent ----

  /** The call at position `n` of a run sends. */
  predicate SendsAt(stored: map<Asset, Watermark>, events: seq<Event>, n: nat) {
    && n < |events| && events[n].Call?
    && Sends(Run(Start(stored), events[..n]), events[n].asset, events[n].hooks)
  }

  /** What was issued and sent before position `n`. */
  function IssuedBefore(stored: map<Asset, Watermark>, events: seq<Event>, n: nat): seq<Watermark>
    requires n <= |events|
  {
    Run(Start(stored), events[..n]).issued
  }

  /** Number `i` was issued by the call at position `n`, for what that call had built. */
  predicate IssuedBy(stored: map<Asset, Watermark>, events: seq<Event>, i: nat, n: nat) {
    var issued := Run(Start(stored), events).issued;
    && SendsAt(stored, events, n) && |IssuedBefore(stored, events, n)| == i && i < |issued|
    && OfCall(issued[i], events[n].asset, events[n].hooks)
  }

  predicate OfCall(wm: Watermark, a: Asset, h: Hooks) {
    && wm.asset == a && wm.lineage == h.lineage && wm.sentAt == h.sentAt
    && h.build.Some? && wm.content == Built(h.build.value)
  }

  lemma OneStepIssues(stored: map<Asset, Watermark>, events: seq<Event>)
    requires ProperlyKeyed(stored) && events != []
    ensures var n := |events| - 1;
            var before, after := IssuedBefore(stored, events, n), Run(Start(stored), events).issued;
            if SendsAt(stored, events, n) then
              && |after| == |before| + 1 && after[..|before|] == before
              && OfCall(after[|before|], events[n].asset, events[n].hooks)
            else after == before
  {
    var n := |events| - 1;
    if events[n].Call? {
      SendsExactlyWhen(stored, events[..n], events[n].asset, events[n].hooks);
    }
    hide PublishAsset, Publishable, NextNumber;
  }

  lemma SendsAtPrefix(stored: map<Asset, Watermark>, events: seq<Event>, last: nat, n: nat)
    requires n < last <= |events|
    ensures SendsAt(stored, events[..last], n) <==> SendsAt(stored, events, n)
    ensures IssuedBefore(stored, events[..last], n) == IssuedBefore(stored, events, n)
  {
    assert events[..last][..n] == events[..n];
  }

  ghost predicate HasCall(stored: map<Asset, Watermark>, events: seq<Event>, i: nat) {
    exists n: nat :: IssuedBy(stored, events, i, n)
  }

  lemma StillIssued(stored: map<Asset, Watermark>, events: seq<Event>, i: nat, n: nat)
    requires ProperlyKeyed(stored) && events != [] && IssuedBy(stored, events[..|events| - 1], i, n)
    ensures n < |events| && IssuedBy(stored, events, i, n)
  {
    OneStepIssues(stored, events);
    SendsAtPrefix(stored, events, |events| - 1, n);
    hide Run, Sends, OfCall;
  }

  lemma LastIssues(stored: map<Asset, Watermark>, events: seq<Event>)
    requires ProperlyKeyed(stored) && events != [] && SendsAt(stored, events, |events| - 1)
    ensures IssuedBy(stored, events, |IssuedBefore(stored, events, |events| - 1)|, |events| - 1)
    ensures |Run(Start(stored), events).issued| == |IssuedBefore(stored, events, |events| - 1)| + 1
  {
    OneStepIssues(stored, events);
    hide Run, Sends, OfCall;
  }

  lemma NumberHasCall(stored: map<Asset, Watermark>, events: seq<Event>, i: nat)
    requires ProperlyKeyed(stored) && events != [] && i < |Run(Start(stored), events).issued|
    requires i < |IssuedBefore(stored, events, |events| - 1)| ==> HasCall(stored, events[..|events| - 1], i)
    ensures HasCall(stored, events, i)
  {
    hide Run, IssuedBy, SendsAt, OfCall;
    OneStepIssues(stored, events);
    if i < |IssuedBefore(stored, events, |events| - 1)| {
      var n: nat :| IssuedBy(stored, events[..|events| - 1], i, n);
      StillIssued(stored, events, i, n);
    } else {
      LastIssues(stored, events);
    }
  }

  /** In every run each number was issued by a call that sends. */
  lemma {:induction false} EachNumberHasCall(stored: map<Asset, Watermark>, events: seq<Event>, i: nat)
    requires ProperlyKeyed(stored) && i < |Run(Start(stored), events).issued|
    ensures HasCall(stored, events, i)
    decreases |events|
  {
    hide PublishAsset, HasCall;
    if events != [] {
      if i < |IssuedBefore(stored, events, |events| - 1)| {
        EachNumberHasCall(stored, events[..|events| - 1], i);
      }
      NumberHasCall(stored, events, i);
    }
  }

  /** In every run each call that sends issues the next number, for what it has built. */
  lemma {:induction false} EachSendIssues(stored: map<Asset, Watermark>, events: seq<Event>, n: nat)
    requires ProperlyKeyed(stored) && n < |events| && SendsAt(stored, events, n)
    ensures IssuedBy(stored, events, |IssuedBefore(stored, events, n)|, n)
    decreases |events|
  {
    hide Run, SendsAt, IssuedBy;
    if n == |events| - 1 {
      LastIssues(stored, events);
    } else {
      SendsAtPrefix(stored, events, |events| - 1, n);
      EachSendIssues(stored, events[..|events| - 1], n);
      StillIssued(stored, events, |IssuedBefore(stored, events, n)|, n);
    }
  }
}
