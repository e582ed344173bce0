/**
 Runs worth knowing: an undisturbed completion, and the runs that show why the theorems
 exclude takeovers and torn uploads.
 */
module SessionRuns {
  import opened Wrappers
  import opened SessionProtocol
  import opened SessionProofs

  /** One state update with nobody in between: read, check, stamp, upload. */
  function UpdateSteps(g: nat): seq<Step> { [ReadMeta(g), ReadContent(g), Check(g), Stamp(g), Land(g)] }

  predicate Ready(w: World, g: nat) {
    && Live(w, g) && w.guards[g].pc.Reading? && w.guards[g].pc.meta.None? && w.guards[g].pc.content.None?
    && w.guards[g].key in w.blobs
    && var b, guard := w.blobs[w.guards[g].key], w.guards[g];
       CheckUpdate(b.state, Target(guard.pc.phase, guard.commit), Forced(guard.pc.phase), w.clock - b.updated).Allowed?
  }

  function Updated(w: World, g: nat): World
    requires Ready(w, g)
  {
    var guard := w.guards[g];
    var k, p := guard.key, guard.pc.phase;
    var pc := if p.Enter? then Body else Ended(if p.failed then RolledBack else Completed);
    w.(guards := w.guards[g := guard.(pc := pc)],
       blobs := w.blobs[k := Blob(w.nextEtag, Target(p, guard.commit), w.clock, w.blobs[k].terms)],
       nextEtag := w.nextEtag + 1,
       history := w.history[k := Past(w, k).(
         takeovers := Past(w, k).takeovers + (if p.Enter? && IsPending(w.blobs[k].state) then 1 else 0))])
  }

  lemma SetGuardTwice(w: World, g: nat, a: Guard, b: Guard)
    ensures SetGuard(SetGuard(w, g, a), g, b) == SetGuard(w, g, b)
  {
    assert w.guards[g := a][g := b] == w.guards[g := b];
  }

  lemma ReadsAlone(w: World, g: nat)
    requires Ready(w, g)
    ensures var guard, b := w.guards[g], w.blobs[w.guards[g].key];
      && Do(Do(w, ReadMeta(g)), ReadContent(g))
         == SetGuard(w, g, guard.(pc := Reading(guard.pc.phase, Some(b.etag), Some(b))))
  {
    var guard := w.guards[g];
    var one := AfterReadMeta(guard, w.blobs);
    SetGuardTwice(w, g, one, AfterReadContent(one, w.blobs));
  }

  lemma ChecksAlone(w: World, g: nat, b: Blob)
    requires Live(w, g) && w.guards[g].pc.Reading? && w.guards[g].pc.meta.Some? && w.guards[g].pc.content == Some(b)
    requires var guard := w.guards[g];
      CheckUpdate(b.state, Target(guard.pc.phase, guard.commit), Forced(guard.pc.phase), w.clock - b.updated).Allowed?
    ensures var guard := w.guards[g];
      Do(Do(w, Check(g)), Stamp(g))
      == SetGuard(w, g, guard.(pc := Sent(guard.pc.phase, guard.pc.meta.value, b, w.clock, w.clock)))
  {
    var one := AfterCheck(w.guards[g], w.clock);
    SetGuardTwice(w, g, one, AfterStamp(one, w.clock));
  }

  lemma LandsAlone(w: World, g: nat)
    requires Ready(w, g)
    ensures var guard, b := w.guards[g], w.blobs[w.guards[g].key];
      var sent := guard.(pc := Sent(guard.pc.phase, b.etag, b, w.clock, w.clock));
      Do(SetGuard(w, g, sent), Land(g)) == Updated(w, g)
  {
    var guard, b := w.guards[g], w.blobs[w.guards[g].key];
    var sent := guard.(pc := Sent(guard.pc.phase, b.etag, b, w.clock, w.clock));
    assert AfterLand(sent, w.blobs) == Updated(w, g).guards[g];
    SetGuardTwice(w, g, sent, AfterLand(sent, w.blobs));
  }

  lemma UpdateAloneWorld(w: World, g: nat)
    requires Ready(w, g)
    ensures Do(Do(Do(Do(Do(w, ReadMeta(g)), ReadContent(g)), Check(g)), Stamp(g)), Land(g)) == Updated(w, g)
  {
    var guard, b := w.guards[g], w.blobs[w.guards[g].key];
    var read := guard.(pc := Reading(guard.pc.phase, Some(b.etag), Some(b)));
    var sent := guard.(pc := Sent(guard.pc.phase, b.etag, b, w.clock, w.clock));
    calc {
      Do(Do(Do(Do(Do(w, ReadMeta(g)), ReadContent(g)), Check(g)), Stamp(g)), Land(g));
      { ReadsAlone(w, g); }
      Do(Do(Do(SetGuard(w, g, read), Check(g)), Stamp(g)), Land(g));
      { ChecksAlone(SetGuard(w, g, read), g, b); SetGuardTwice(w, g, read, sent); }
      Do(SetGuard(w, g, sent), Land(g));
      { LandsAlone(w, g); }
      Updated(w, g);
    }
  }

  /** An undisturbed update that the check allows always lands. */
  lemma UpdateAlone(steps: seq<Step>, g: nat)
    requires Ready(Run(steps), g)
    ensures Run(steps + UpdateSteps(g)) == Updated(Run(steps), g)
  {
    var s1 := steps + [ReadMeta(g)];
    var s2 := s1 + [ReadContent(g)];
    var s3 := s2 + [Check(g)];
    var s4 := s3 + [Stamp(g)];
    RunSnoc(steps, ReadMeta(g));
    RunSnoc(s1, ReadContent(g));
    RunSnoc(s2, Check(g));
    RunSnoc(s3, Stamp(g));
    RunSnoc(s4, Land(g));
    UpdateAloneWorld(Run(steps), g);
    assert s4 + [Land(g)] == steps + UpdateSteps(g);
  }

  /** A session starts open, now, with the terms asked for, and has published nothing. */
  lemma CreationAlone(steps: seq<Step>, k: Key, terms: Terms)
    requires k !in Run(steps).history
    ensures var w, w' := Run(steps), Run(steps + [Create(k, terms)]);
      && w'.blobs == w.blobs[k := Blob(w.nextEtag, Open, w.clock, terms)]
      && w'.history == w.history[k := History(w.clock, 0, 0, [], terms)]
  {
    RunSnoc(steps, Create(k, terms));
  }

  /** A deletion goes through exactly when the session exists and is closed, or force is used. */
  lemma DeletionAlone(steps: seq<Step>, d: nat, k: Key, force: bool)
    requires d !in Run(steps).deleters
    ensures var w, w' := Run(steps), Run(steps + [ApproveDelete(d, k, force)] + [LandDelete(d)]);
      w'.blobs == if k in w.blobs && (force || w.blobs[k].state in {Committed, Abandoned}) then w.blobs - {k}
                  else w.blobs
  {
    RunSnoc(steps, ApproveDelete(d, k, force));
    RunSnoc(steps + [ApproveDelete(d, k, force)], LandDelete(d));
  }

  /** A crashed guard does nothing any more; at most a request it had sent still lands. */
  lemma CrashedGuardIsGone(steps: seq<Step>, g: nat, s: Step)
    requires Live(Run(steps), g) && IsGuardStep(s) && s.g == g && !s.Begin?
    ensures Run(steps + [Crash(g)] + [s]) == Run(steps + [Crash(g)])
    ensures Run(steps + [Crash(g)]).blobs == Run(steps).blobs
  {
    RunSnoc(steps, Crash(g));
    RunSnoc(steps + [Crash(g)], s);
  }

  /** What the body of a guard does: publish, give up the session, or raise. */
  function BodyStep(g: nat, commit: bool, failed: bool, version: nat): Step {
    if failed then Raise(g) else if commit then Publish(g, version) else FinishAbandon(g)
  }

  function EntrySteps(g: nat, k: Key, commit: bool): seq<Step> { [Begin(g, k, commit)] + UpdateSteps(g) }

  function CompletionSteps(g: nat, k: Key, commit: bool, failed: bool, version: nat, elapsed: nat): seq<Step> {
    EntrySteps(g, k, commit) + [BodyStep(g, commit, failed, version)] + [Tick(elapsed)] + UpdateSteps(g)
  }

  lemma EntryAlone(steps: seq<Step>, g: nat, k: Key, commit: bool)
    requires var w := Run(steps);
      && g !in w.guards && k in w.blobs
      && MatrixAllows(w.blobs[k].state, PendingState(commit), w.clock - w.blobs[k].updated)
    ensures var w, w' := Run(steps), Run(steps + EntrySteps(g, k, commit));
      && g in w'.guards && w'.guards[g] == Guard(k, commit, true, Body) && w'.clock == w.clock
      && w'.blobs == w.blobs[k := Blob(w.nextEtag, PendingState(commit), w.clock, w.blobs[k].terms)]
      && w'.nextEtag == w.nextEtag + 1
      && Past(w', k).published == Past(w, k).published
  {
    var begun := steps + [Begin(g, k, commit)];
    RunSnoc(steps, Begin(g, k, commit));
    UpdateAlone(begun, g);
    assert begun + UpdateSteps(g) == steps + EntrySteps(g, k, commit);
  }

  lemma BodyAlone(w: World, g: nat, k: Key, commit: bool, failed: bool, version: nat, elapsed: nat)
    requires g in w.guards && w.guards[g] == Guard(k, commit, true, Body)
    requires k in w.blobs && w.blobs[k].state == PendingState(commit)
    ensures var w' := Do(Do(w, BodyStep(g, commit, failed, version)), Tick(elapsed));
      && Ready(w', g) && w'.guards[g] == Guard(k, commit, true, Reading(Leave(failed), None, None))
      && w'.blobs == w.blobs && w'.nextEtag == w.nextEtag && w'.clock == w.clock + elapsed
      && Past(w', k).published == Past(w, k).published + (if commit && !failed then [version] else [])
  {
  }

  lemma ExitAlone(steps: seq<Step>, g: nat, k: Key, commit: bool, failed: bool)
    requires var w := Run(steps);
      Ready(w, g) && w.guards[g] == Guard(k, commit, true, Reading(Leave(failed), None, None))
    ensures var w, w' := Run(steps), Run(steps + UpdateSteps(g));
      && k in w.blobs
      && w'.blobs == w.blobs[k :=
           Blob(w.nextEtag, if failed then Open else ClosedState(commit), w.clock, w.blobs[k].terms)]
      && Past(w', k).published == Past(w, k).published
  {
    UpdateAlone(steps, g);
  }

  /**
   From any reachable world, a guard that may enter and is not disturbed closes the session, or reopens it if its
   body fails, and publishes exactly once if it commits; no other session changes.
   */
  lemma CompletionAlone(steps: seq<Step>, g: nat, k: Key, commit: bool, failed: bool, version: nat, elapsed: nat)
    requires var w := Run(steps);
      && g !in w.guards && k in w.blobs
      && MatrixAllows(w.blobs[k].state, PendingState(commit), w.clock - w.blobs[k].updated)
    ensures var w, w' := Run(steps), Run(steps + CompletionSteps(g, k, commit, failed, version, elapsed));
      && w'.blobs == w.blobs[k :=
           Blob(w.nextEtag + 1, if failed then Open else ClosedState(commit), w.clock + elapsed, w.blobs[k].terms)]
      && Past(w', k).published == Past(w, k).published + (if commit && !failed then [version] else [])
  {
    var entered := steps + EntrySteps(g, k, commit);
    EntryAlone(steps, g, k, commit);
    var body := BodyStep(g, commit, failed, version);
    RunSnoc(entered, body);
    RunSnoc(entered + [body], Tick(elapsed));
    BodyAlone(Run(entered), g, k, commit, failed, version, elapsed);
    var ticked := entered + [body] + [Tick(elapsed)];
    ExitAlone(ticked, g, k, commit, failed);
    assert ticked + UpdateSteps(g) == steps + CompletionSteps(g, k, commit, failed, version, elapsed);
  }

  /** A session not closed is never stuck: after five idle minutes any request can abandon it, or commit it. */
  lemma NeverStuck(steps: seq<Step>, g: nat, k: Key, commit: bool, version: nat)
    requires g !in Run(steps).guards && k in Run(steps).blobs && !IsClosed(Run(steps).blobs[k].state)
    requires commit ==> Run(steps).blobs[k].state != Abandoning
    ensures var w' := Run(steps + [Tick(5 * 60 * 1_000_000)] + CompletionSteps(g, k, commit, false, version, 0));
      k in w'.blobs && w'.blobs[k].state == ClosedState(commit)
  {
    RunsAreRecorded(steps);
    assert BlobOk(Run(steps), k);
    RunSnoc(steps, Tick(IDLE_LIMIT));
    CompletionAlone(steps + [Tick(IDLE_LIMIT)], g, k, commit, false, version, 0);
  }

  const SESSION: Key := "sessions/r/s"

  const TERMS := Terms(0, false, None)

  function EnteredRun(): seq<Step> { [Create(SESSION, TERMS), Begin(1, SESSION, true)] + UpdateSteps(1) }

  lemma EnteredRunReaches()
    ensures Run(EnteredRun()) == World(
      0, 2, map[SESSION := Blob(1, Committing, 0, TERMS)], map[1 := Guard(SESSION, true, true, Body)], map[],
      map[SESSION := History(0, 0, 0, [], TERMS)])
  {
    var a: seq<Step> := [];
    var b := a + [Create(SESSION, TERMS)];
    var c := b + [Begin(1, SESSION, true)];
    RunSnoc(a, Create(SESSION, TERMS));
    RunSnoc(b, Begin(1, SESSION, true));
    assert Ready(Run(c), 1);
    UpdateAlone(c, 1);
    assert EnteredRun() == c + UpdateSteps(1);
    assert Run(EnteredRun()).blobs == map[SESSION := Blob(1, Committing, 0, TERMS)];
    assert Run(EnteredRun()).guards == map[1 := Guard(SESSION, true, true, Body)];
  }

  /** Guard 1 enters, five minutes pass in its body, and guard 2 takes over. */
  function TakeoverRun(): seq<Step> { EnteredRun() + [Tick(IDLE_LIMIT)] + [Begin(2, SESSION, true)] + UpdateSteps(2) }

  const BOTH_IN_BODY := World(
    IDLE_LIMIT, 3,
    map[SESSION := Blob(2, Committing, IDLE_LIMIT, TERMS)],
    map[1 := Guard(SESSION, true, true, Body), 2 := Guard(SESSION, true, true, Body)],
    map[],
    map[SESSION := History(0, 1, 0, [], TERMS)])

  lemma TakeoverRunReaches()
    ensures Run(TakeoverRun()) == BOTH_IN_BODY
  {
    EnteredRunReaches();
    var d := EnteredRun();
    var e := d + [Tick(IDLE_LIMIT)];
    var f := e + [Begin(2, SESSION, true)];
    RunSnoc(d, Tick(IDLE_LIMIT));
    RunSnoc(e, Begin(2, SESSION, true));
    assert Ready(Run(f), 2);
    UpdateAlone(f, 2);
    var w := Updated(Run(f), 2);
    assert w.blobs == BOTH_IN_BODY.blobs;
    assert w.guards == BOTH_IN_BODY.guards;
    assert w.history == BOTH_IN_BODY.history;
  }

  /** The superseded guard 1 publishes and closes the session. */
  function ClosedBySuperseded(): seq<Step> { TakeoverRun() + [Publish(1, 10)] + UpdateSteps(1) }

  const CLOSED_BY_1 := BOTH_IN_BODY.(
    nextEtag := 4,
    blobs := map[SESSION := Blob(3, Committed, IDLE_LIMIT, TERMS)],
    guards := map[1 := Guard(SESSION, true, true, Ended(Completed)), 2 := Guard(SESSION, true, true, Body)],
    history := map[SESSION := History(0, 1, 0, [10], TERMS)])

  lemma ClosedBySupersededReaches()
    ensures Run(ClosedBySuperseded()) == CLOSED_BY_1
  {
    TakeoverRunReaches();
    RunSnoc(TakeoverRun(), Publish(1, 10));
    var p := TakeoverRun() + [Publish(1, 10)];
    var w := BOTH_IN_BODY.(
      guards := BOTH_IN_BODY.guards[1 := Guard(SESSION, true, true, Reading(Leave(false), None, None))],
      history := map[SESSION := History(0, 1, 0, [10], TERMS)]);
    assert Past(BOTH_IN_BODY, SESSION).published + [10] == [10];
    assert Run(p).history == w.history;
    assert Ready(w, 1);
    UpdateAlone(p, 1);
    assert Updated(w, 1).guards == CLOSED_BY_1.guards;
    assert Updated(w, 1).blobs == CLOSED_BY_1.blobs;
  }

  /**
   Finality fails once a takeover has landed, and not only through the superseded guard: guard 2, which
   took the session over and was never superseded, rolls back and reopens the session guard 1 committed.
   */
  lemma SupersedingGuardReopensCommitted()
    ensures var before := ClosedBySuperseded();
            var after := before + [Raise(2)] + UpdateSteps(2);
      && SESSION in Run(before).blobs && Run(before).blobs[SESSION].state == Committed
      && SESSION in Run(after).blobs && Run(after).blobs[SESSION].state == Open
      && TornUploads(Run(after), SESSION) == 0 && Takeovers(Run(after), SESSION) == 1
      && Publications(Run(after), SESSION) == 1
  {
    ClosedBySupersededReaches();
    var before := ClosedBySuperseded();
    RunSnoc(before, Raise(2));
    var p := before + [Raise(2)];
    assert Run(p) == SetGuard(CLOSED_BY_1, 2, Guard(SESSION, true, true, Reading(Leave(true), None, None)));
    assert Ready(Run(p), 2);
    UpdateAlone(p, 2);
  }

  /** The bound on publications is reached: one takeover, two published versions. */
  lemma OneTakeoverTwoPublications()
    ensures var steps := ClosedBySuperseded() + [Publish(2, 11)];
      && TornUploads(Run(steps), SESSION) == 0 && Takeovers(Run(steps), SESSION) == 1
      && Publications(Run(steps), SESSION) == 2
  {
    ClosedBySupersededReaches();
    RunSnoc(ClosedBySuperseded(), Publish(2, 11));
  }

  /** Guard 2 reads the content before, and the metadata after, the entry write of guard 1. */
  function TornStart(): seq<Step> {
    [Create(SESSION, TERMS), Begin(2, SESSION, true), ReadContent(2), Begin(1, SESSION, true)]
  }

  /** The order of the two reads alone does no harm: this run is covered by the theorems. */
  lemma TornStartReaches()
    ensures !MetaFirst(TornStart()) && TornUploads(Run(TornStart()), SESSION) == 0
    ensures Run(TornStart()) == World(
      0, 1, map[SESSION := Blob(0, Open, 0, TERMS)],
      map[1 := Guard(SESSION, true, true, Reading(Enter, None, None)),
          2 := Guard(SESSION, true, true, Reading(Enter, None, Some(Blob(0, Open, 0, TERMS))))],
      map[], map[SESSION := History(0, 0, 0, [], TERMS)])
  {
    var a: seq<Step> := [];
    var b := a + [Create(SESSION, TERMS)];
    var c := b + [Begin(2, SESSION, true)];
    var d := c + [ReadContent(2)];
    RunSnoc(a, Create(SESSION, TERMS));
    RunSnoc(b, Begin(2, SESSION, true));
    RunSnoc(c, ReadContent(2));
    MetaFirstSnoc(c, ReadContent(2));
    RunSnoc(d, Begin(1, SESSION, true));
    MetaFirstSnoc(d, Begin(1, SESSION, true));
    assert d + [Begin(1, SESSION, true)] == TornStart();
  }

  /** Guard 2 holds the content of the created session and has not read the metadata. */
  predicate HoldsOldContent(w: World) {
    && 2 in w.guards && w.guards[2] == Guard(SESSION, true, true, Reading(Enter, None, Some(Blob(0, Open, 0, TERMS))))
    && SESSION in w.blobs && w.blobs[SESSION].etag > 0 && w.clock == 0
  }

  const TORN_END: seq<Step> := [ReadMeta(2), Check(2), Stamp(2), Land(2)]

  /** Whatever is stored meanwhile, it enters. */
  lemma TornEnd(steps: seq<Step>)
    requires HoldsOldContent(Run(steps)) && SESSION in Run(steps).history
    ensures var w, last := Run(steps), Run(steps + TORN_END);
      && TornUploads(last, SESSION) > 0
      && last.clock == 0 && 2 in last.guards && last.guards[2] == Guard(SESSION, true, true, Body)
      && (forall h | h in w.guards && h != 2 :: h in last.guards && last.guards[h] == w.guards[h])
      && SESSION in last.blobs && last.blobs[SESSION].state == Committing
      && Past(last, SESSION).published == Past(w, SESSION).published
      && (IsClosed(w.blobs[SESSION].state) ==> Takeovers(last, SESSION) == Takeovers(w, SESSION))
  {
    var s1 := steps + [ReadMeta(2)];
    var s2 := s1 + [Check(2)];
    var s3 := s2 + [Stamp(2)];
    RunSnoc(steps, ReadMeta(2));
    RunSnoc(s1, Check(2));
    RunSnoc(s2, Stamp(2));
    RunSnoc(s3, Land(2));
    assert s3 + [Land(2)] == steps + TORN_END;
    ChecksAlone(Run(s1), 2, Blob(0, Open, 0, TERMS));
    assert IsTornUpload(Run(s3), Land(2));
  }

  function TornRun(): seq<Step> { TornStart() + UpdateSteps(1) + TORN_END }

  lemma TornMiddleReaches()
    ensures var w := Run(TornStart() + UpdateSteps(1));
      && HoldsOldContent(w) && w.blobs[SESSION].state == Committing
      && w.history == map[SESSION := History(0, 0, 0, [], TERMS)]
      && w.nextEtag > 0 && 1 in w.guards && w.guards[1] == Guard(SESSION, true, true, Body)
  {
    TornStartReaches();
    assert Ready(Run(TornStart()), 1);
    UpdateAlone(TornStart(), 1);
  }

  /**
   An upload that lands between the two reads of a guard breaks mutual exclusion: two guards are armed on
   one session at the same instant, with no idle time at all.
   */
  lemma TornReadBreaksExclusion()
    ensures var w := Run(TornRun());
      && TornUploads(w, SESSION) > 0 && w.clock == 0
      && 1 in w.guards && 2 in w.guards && Armed(w.guards[1]) && Armed(w.guards[2])
      && w.guards[1].key == w.guards[2].key == SESSION
  {
    TornMiddleReaches();
    TornEnd(TornStart() + UpdateSteps(1));
  }

  /** Guard 1 publishes and commits between the two reads of guard 2. */
  function CommittedBetween(): seq<Step> { TornStart() + UpdateSteps(1) + [Publish(1, 10)] + UpdateSteps(1) }

  lemma CommittedBetweenReaches()
    ensures var w := Run(CommittedBetween());
      && HoldsOldContent(w) && w.blobs[SESSION].state == Committed
      && w.history == map[SESSION := History(0, 0, 0, [10], TERMS)]
  {
    TornMiddleReaches();
    var p := TornStart() + UpdateSteps(1) + [Publish(1, 10)];
    RunSnoc(TornStart() + UpdateSteps(1), Publish(1, 10));
    assert History(0, 0, 0, [], TERMS).published + [10] == [10];
    assert Ready(Run(p), 1);
    UpdateAlone(p, 1);
  }

  /** And it breaks finality and publish-once: a committed session is entered again, and no takeover ever landed. */
  lemma TornReadReentersCommitted()
    ensures var before := CommittedBetween();
            var entered := before + TORN_END;
            var after := entered + [Publish(2, 11)];
      && SESSION in Run(before).blobs && Run(before).blobs[SESSION].state == Committed
      && SESSION in Run(entered).blobs && Run(entered).blobs[SESSION].state == Committing
      && Takeovers(Run(after), SESSION) == 0 && Publications(Run(after), SESSION) == 2
  {
    CommittedBetweenReaches();
    TornEnd(CommittedBetween());
    RunSnoc(CommittedBetween() + TORN_END, Publish(2, 11));
  }
}
