/**
 Invariants of every run of the session protocol, and the theorems that follow.

 `Recorded` holds in every run and gives the exact strength of the compare-and-swap over
 the two reads.  On sessions without a torn upload, `Coherent` adds that takeovers cost time
 and `Bounded` counts publications against takeovers; `Exclusive` describes the sessions on
 which no takeover has landed either.
 */
module SessionProofs {
  import opened Wrappers
  import opened SessionProtocol

  // ---------- what every run keeps: the store and what was read from it ----------

  ghost predicate MetaOk(w: World, k: Key, meta: nat) {
    k in w.history && meta < w.nextEtag && (k in w.blobs ==> meta <= w.blobs[k].etag)
  }

  /** Content read earlier is no newer than what is stored, and is the stored one if it carries the stored etag. */
  ghost predicate ContentOk(w: World, k: Key, seen: Blob) {
    && k in w.history && seen.etag < w.nextEtag && seen.updated <= w.clock && seen.terms == w.history[k].terms
    && (k in w.blobs ==> seen.etag <= w.blobs[k].etag && (seen.etag == w.blobs[k].etag ==> seen == w.blobs[k]))
  }

  ghost predicate Decided(g: Guard, phase: Phase, seen: Blob, at: Time) {
    seen.updated <= at && CheckUpdate(seen.state, Target(phase, g.commit), Forced(phase), at - seen.updated).Allowed?
  }

  ghost predicate GuardOk(w: World, g: Guard) {
    match g.pc
    case Reading(p, m, c) =>
      && (p.Leave? ==> g.key in w.history)
      && (m.Some? ==> MetaOk(w, g.key, m.value))
      && (c.Some? ==> ContentOk(w, g.key, c.value))
    case Checked(p, m, seen, at) =>
      MetaOk(w, g.key, m) && ContentOk(w, g.key, seen) && Decided(g, p, seen, at) && at <= w.clock
    case Sent(p, m, seen, at, stamp) =>
      MetaOk(w, g.key, m) && ContentOk(w, g.key, seen) && Decided(g, p, seen, at) && at <= stamp <= w.clock
    case Body => g.key in w.history
    case Ended(_) => true
  }

  ghost predicate BlobOk(w: World, k: Key)
    requires k in w.blobs
  {
    && k in w.history && w.blobs[k].etag < w.nextEtag && w.blobs[k].updated <= w.clock
    && w.blobs[k].terms == w.history[k].terms
  }

  ghost predicate Recorded(w: World) {
    && (forall k | k in w.blobs :: BlobOk(w, k))
    && (forall g | g in w.guards :: GuardOk(w, w.guards[g]))
    && (forall d | d in w.deleters :: w.deleters[d].key in w.history)
  }

  /** What a world may do to facts other guards rely on: new contents only under etags never used before. */
  ghost predicate Advances(w: World, w': World) {
    && w.clock <= w'.clock && w.nextEtag <= w'.nextEtag && w.history.Keys <= w'.history.Keys
    && (forall k | k in w.history :: w'.history[k].terms == w.history[k].terms)
    && forall k | k in w'.blobs ::
         (k in w.blobs && w'.blobs[k] == w.blobs[k]) || w.nextEtag <= w'.blobs[k].etag
  }

  lemma GuardOkAdvances(w: World, w': World, g: Guard)
    requires GuardOk(w, g) && Advances(w, w')
    ensures GuardOk(w', g)
  {
  }

  lemma OthersOk(w: World, w': World, g: nat)
    requires Recorded(w) && Advances(w, w')
    requires || w'.guards == w.guards
             || (g in w'.guards && w'.guards == w.guards[g := w'.guards[g]] && GuardOk(w', w'.guards[g]))
    ensures forall h | h in w'.guards :: GuardOk(w', w'.guards[h])
  {
    forall h | h in w'.guards ensures GuardOk(w', w'.guards[h]) {
      if h in w.guards && w'.guards[h] == w.guards[h] {
        GuardOkAdvances(w, w', w.guards[h]);
      }
    }
  }

  lemma RecordedLand(w: World, g: nat)
    requires Recorded(w) && Enabled(w, Land(g))
    ensures Recorded(Apply(w, Land(g)))
  {
    var w' := Apply(w, Land(g));
    assert GuardOk(w, w.guards[g]);
    forall k | k in w'.blobs ensures BlobOk(w', k) {
      if k in w.blobs { assert BlobOk(w, k); }
    }
    OthersOk(w, w', g);
  }

  /** Only one guard changes, and possibly what its session has published. */
  ghost predicate OneGuardMoves(w: World, w': World, g: nat) {
    && w'.(guards := w.guards, history := w.history) == w
    && g in w'.guards && w'.guards == w.guards[g := w'.guards[g]]
    && w'.history.Keys == w.history.Keys
    && forall k | k in w.history :: w'.history[k] == w.history[k].(published := w'.history[k].published)
  }

  lemma RecordedGuard(w: World, w': World, g: nat)
    requires Recorded(w) && OneGuardMoves(w, w', g) && GuardOk(w, w'.guards[g])
    ensures Recorded(w')
  {
    forall k | k in w'.blobs ensures BlobOk(w', k) { assert BlobOk(w, k); }
    GuardOkAdvances(w, w', w'.guards[g]);
    OthersOk(w, w', g);
  }

  predicate IsGuardStep(s: Step) {
    s.Begin? || s.ReadMeta? || s.ReadContent? || s.Check? || s.Stamp?
    || s.Publish? || s.FinishAbandon? || s.Raise? || s.Crash?
  }

  lemma MovedGuardOk(w: World, s: Step)
    requires Recorded(w) && Enabled(w, s) && IsGuardStep(s)
    ensures GuardOk(w, Apply(w, s).guards[s.g])
  {
    if !s.Begin? {
      var guard := w.guards[s.g];
      assert GuardOk(w, guard);
      if guard.key in w.blobs { assert BlobOk(w, guard.key); }
      if s.ReadMeta? {
        assert Apply(w, s).guards[s.g] == AfterReadMeta(guard, w.blobs);
      } else if s.ReadContent? {
        assert Apply(w, s).guards[s.g] == AfterReadContent(guard, w.blobs);
      } else if s.Check? {
        assert Apply(w, s).guards[s.g] == AfterCheck(guard, w.clock);
      }
    }
  }

  lemma GuardStepMovesOne(w: World, s: Step)
    requires Recorded(w) && Enabled(w, s) && IsGuardStep(s)
    ensures OneGuardMoves(w, Apply(w, s), s.g)
  {
    if s.Publish? { assert GuardOk(w, w.guards[s.g]); }
  }

  lemma RecordedStoreStep(w: World, s: Step)
    requires Recorded(w) && Enabled(w, s)
    requires s.Tick? || s.Create? || s.ApproveDelete? || s.LandDelete?
    ensures Recorded(Do(w, s))
  {
    var w' := Do(w, s);
    forall k | k in w'.blobs ensures BlobOk(w', k) {
      if k in w.blobs { assert BlobOk(w, k); }
    }
    OthersOk(w, w', 0);
  }

  lemma RecordedStep(w: World, s: Step)
    requires Recorded(w)
    ensures Recorded(Do(w, s))
  {
    if Enabled(w, s) {
      if s.Land? { RecordedLand(w, s.g); }
      else if IsGuardStep(s) {
        MovedGuardOk(w, s);
        GuardStepMovesOne(w, s);
        RecordedGuard(w, Apply(w, s), s.g);
      } else {
        RecordedStoreStep(w, s);
      }
    }
  }

  /** In every run whatever, in whichever order the two reads come. */
  lemma {:induction false} RunsAreRecorded(steps: seq<Step>)
    ensures Recorded(Run(steps))
  {
    if |steps| > 0 {
      RunsAreRecorded(steps[..|steps| - 1]);
      RecordedStep(Run(steps[..|steps| - 1]), steps[|steps| - 1]);
    }
  }

  lemma TermsStayStep(w: World, s: Step, k: Key)
    requires k in w.history
    ensures k in Do(w, s).history && Do(w, s).history[k].terms == w.history[k].terms
  {
  }

  /** Whatever happens, every guard and every reader finds a session with the terms it was created with. */
  lemma {:induction false} TermsNeverChange(steps: seq<Step>, more: seq<Step>, k: Key)
    requires k in Run(steps).blobs
    ensures k in Run(steps + more).history && Run(steps + more).history[k].terms == Run(steps).blobs[k].terms
    ensures k in Run(steps + more).blobs ==> Run(steps + more).blobs[k].terms == Run(steps).blobs[k].terms
    decreases |more|
  {
    RunsAreRecorded(steps);
    assert BlobOk(Run(steps), k);
    if |more| == 0 {
      assert steps + more == steps;
    } else {
      var before, s := more[..|more| - 1], more[|more| - 1];
      TermsNeverChange(steps, before, k);
      TermsStayStep(Run(steps + before), s, k);
      RunSnoc(steps + before, s);
      assert steps + more == steps + before + [s];
    }
    RunsAreRecorded(steps + more);
    if k in Run(steps + more).blobs { assert BlobOk(Run(steps + more), k); }
  }

  // ---------- the compare-and-swap argument ----------

  /** When a conditional upload is accepted, the content it was decided on is what is stored, unless it is torn. */
  lemma CasIsExact(w: World, g: nat)
    requires Recorded(w) && Enabled(w, Land(g)) && UploadMatches(w.guards[g], w.blobs)
    ensures w.blobs[w.guards[g].key] == w.guards[g].pc.seen <==> !IsTornUpload(w, Land(g))
  {
    assert GuardOk(w, w.guards[g]);
  }

  /** The step is a content read of the guard that returned `seen`. */
  ghost predicate ReturnedContent(steps: seq<Step>, i: nat, g: nat, seen: Blob)
    requires i < |steps|
  {
    var w := Run(steps[..i]);
    steps[i] == ReadContent(g) && Enabled(w, steps[i]) && w.guards[g].key in w.blobs && w.blobs[w.guards[g].key] == seen
  }

  /** The step is a metadata read of the guard that returned `meta`. */
  ghost predicate ReturnedMeta(steps: seq<Step>, j: nat, g: nat, meta: nat)
    requires j < |steps|
  {
    var w := Run(steps[..j]);
    && steps[j] == ReadMeta(g) && Enabled(w, steps[j])
    && w.guards[g].key in w.blobs && w.blobs[w.guards[g].key].etag == meta
  }

  ghost predicate WasRead(steps: seq<Step>, g: nat, seen: Blob) {
    exists i :: 0 <= i < |steps| && ReturnedContent(steps, i, g, seen)
  }

  /** The content was read first, and the session was rewritten before the metadata was read. */
  ghost predicate Overtaken(steps: seq<Step>, g: nat, seen: Blob, meta: nat) {
    seen.etag != meta
    && exists i, j :: 0 <= i < j < |steps| && ReturnedContent(steps, i, g, seen) && ReturnedMeta(steps, j, g, meta)
  }

  lemma ReadEarlier(steps: seq<Step>, s: Step, g: nat, seen: Blob, meta: nat)
    ensures WasRead(steps, g, seen) ==> WasRead(steps + [s], g, seen)
    ensures Overtaken(steps, g, seen, meta) ==> Overtaken(steps + [s], g, seen, meta)
  {
    var longer := steps + [s];
    assert forall i | 0 <= i < |steps| :: longer[..i] == steps[..i] && longer[i] == steps[i];
    if WasRead(steps, g, seen) {
      var i :| 0 <= i < |steps| && ReturnedContent(steps, i, g, seen);
      assert ReturnedContent(longer, i, g, seen);
    }
    if Overtaken(steps, g, seen, meta) {
      var i, j :| 0 <= i < j < |steps| && ReturnedContent(steps, i, g, seen) && ReturnedMeta(steps, j, g, meta);
      assert ReturnedContent(longer, i, g, seen) && ReturnedMeta(longer, j, g, meta);
    }
  }

  /** The etag a guard holds, and the content. */
  function MetaOf(pc: Pc): Option<nat> {
    match pc
    case Reading(_, m, _) => m
    case Checked(_, m, _, _) => Some(m)
    case Sent(_, m, _, _, _) => Some(m)
    case _ => None
  }

  function ContentOf(pc: Pc): Option<Blob> {
    match pc
    case Reading(_, _, c) => c
    case Checked(_, _, seen, _) => Some(seen)
    case Sent(_, _, seen, _, _) => Some(seen)
    case _ => None
  }

  predicate IsRead(w: World, s: Step, g: nat) { (s == ReadMeta(g) || s == ReadContent(g)) && Enabled(w, s) }

  /** Apart from its own reads, a guard keeps what it holds or drops the content. */
  lemma OnlyReadsChangeHeld(w: World, s: Step, g: nat)
    requires !IsRead(w, s, g) && g in Do(w, s).guards
    ensures var pc := Do(w, s).guards[g].pc;
      ContentOf(pc).Some? ==>
        g in w.guards && ContentOf(w.guards[g].pc) == ContentOf(pc) && MetaOf(w.guards[g].pc) == MetaOf(pc)
  {
  }

  /** What a guard holds was read by it, and content older than the etag was overtaken. */
  ghost predicate Sourced(steps: seq<Step>, g: nat) {
    var w := Run(steps);
    g in w.guards && ContentOf(w.guards[g].pc).Some? ==>
      var seen, meta := ContentOf(w.guards[g].pc).value, MetaOf(w.guards[g].pc);
      WasRead(steps, g, seen) && (meta.Some? && seen.etag < meta.value ==> Overtaken(steps, g, seen, meta.value))
  }

  lemma ReadMetaSourced(steps: seq<Step>, g: nat)
    requires Sourced(steps, g) && Enabled(Run(steps), ReadMeta(g))
    ensures Sourced(steps + [ReadMeta(g)], g)
  {
    var w, longer := Run(steps), steps + [ReadMeta(g)];
    RunSnoc(steps, ReadMeta(g));
    var guard := w.guards[g];
    if guard.key in w.blobs && guard.pc.content.Some? {
      var seen, meta := guard.pc.content.value, w.blobs[guard.key].etag;
      ReadEarlier(steps, ReadMeta(g), g, seen, meta);
      var i :| 0 <= i < |steps| && ReturnedContent(steps, i, g, seen);
      assert longer[..i] == steps[..i] && longer[..|steps|] == steps;
      assert ReturnedContent(longer, i, g, seen) && ReturnedMeta(longer, |steps|, g, meta);
    }
  }

  lemma ReadContentSourced(steps: seq<Step>, g: nat)
    requires Enabled(Run(steps), ReadContent(g))
    ensures Sourced(steps + [ReadContent(g)], g)
  {
    var w, longer := Run(steps), steps + [ReadContent(g)];
    RunSnoc(steps, ReadContent(g));
    RunsAreRecorded(steps);
    assert GuardOk(w, w.guards[g]);
    assert longer[..|steps|] == steps;
    if w.guards[g].key in w.blobs { assert ReturnedContent(longer, |steps|, g, w.blobs[w.guards[g].key]); }
  }

  lemma OtherStepSourced(steps: seq<Step>, s: Step, g: nat)
    requires Sourced(steps, g) && !IsRead(Run(steps), s, g)
    ensures Sourced(steps + [s], g)
  {
    RunSnoc(steps, s);
    var w' := Do(Run(steps), s);
    if g in w'.guards && ContentOf(w'.guards[g].pc).Some? {
      OnlyReadsChangeHeld(Run(steps), s, g);
      var seen, meta := ContentOf(w'.guards[g].pc).value, MetaOf(w'.guards[g].pc);
      ReadEarlier(steps, s, g, seen, if meta.Some? then meta.value else 0);
    }
  }

  lemma {:induction false} RunsAreSourced(steps: seq<Step>, g: nat)
    ensures Sourced(steps, g)
  {
    if |steps| > 0 {
      var before, s := steps[..|steps| - 1], steps[|steps| - 1];
      assert steps == before + [s];
      RunsAreSourced(before, g);
      if !IsRead(Run(before), s, g) { OtherStepSourced(before, s, g); }
      else if s.ReadMeta? { ReadMetaSourced(before, g); }
      else { ReadContentSourced(before, g); }
    }
  }

  /**
   The exact strength of the compare-and-swap, in every run whatever: an accepted upload was decided on
   something other than what is stored if and only if its guard read the content first and the session
   was rewritten before that guard read the metadata.
   */
  lemma StaleUploadWasOvertaken(steps: seq<Step>, g: nat)
    requires Enabled(Run(steps), Land(g)) && UploadMatches(Run(steps).guards[g], Run(steps).blobs)
    ensures var w := Run(steps); var guard := w.guards[g];
      && (w.blobs[guard.key] != guard.pc.seen <==> Overtaken(steps, g, guard.pc.seen, guard.pc.ifMatch))
      && (IsTornUpload(w, Land(g)) <==> Overtaken(steps, g, guard.pc.seen, guard.pc.ifMatch))
  {
    RunsAreRecorded(steps);
    RunsAreSourced(steps, g);
    CasIsExact(Run(steps), g);
  }

  /** The content held by a guard is no older than the etag it holds. */
  ghost predicate ReadInOrder(w: World, g: nat) {
    g in w.guards && ContentOf(w.guards[g].pc).Some? ==>
      var meta := MetaOf(w.guards[g].pc);
      meta.Some? && meta.value <= ContentOf(w.guards[g].pc).value.etag
  }

  lemma ReadKeepsOrder(w: World, s: Step, g: nat)
    requires Recorded(w) && ReadInOrder(w, g) && IsRead(w, s, g) && !IsContentFirst(w, s)
    ensures ReadInOrder(Do(w, s), g)
  {
    assert GuardOk(w, w.guards[g]);
    if s.ReadMeta? { assert Do(w, s).guards[g] == AfterReadMeta(w.guards[g], w.blobs); }
    else { assert Do(w, s).guards[g] == AfterReadContent(w.guards[g], w.blobs); }
  }

  lemma {:induction false} MetaFirstReadsInOrder(steps: seq<Step>, g: nat)
    requires MetaFirst(steps)
    ensures ReadInOrder(Run(steps), g)
  {
    if |steps| > 0 {
      var before, s := steps[..|steps| - 1], steps[|steps| - 1];
      MetaFirstReadsInOrder(before, g);
      RunsAreRecorded(before);
      if IsRead(Run(before), s, g) { ReadKeepsOrder(Run(before), s, g); }
      else if g in Run(steps).guards { OnlyReadsChangeHeld(Run(before), s, g); }
    }
  }

  /** If metadata is never read after the content, no upload is ever torn. */
  lemma {:induction false} MetaFirstIsUntorn(steps: seq<Step>, k: Key)
    requires MetaFirst(steps)
    ensures TornUploads(Run(steps), k) == 0
  {
    if |steps| > 0 {
      var before, s := steps[..|steps| - 1], steps[|steps| - 1];
      MetaFirstIsUntorn(before, k);
      if s.Land? { MetaFirstReadsInOrder(before, s.g); }
    }
  }

  lemma RunSnoc(steps: seq<Step>, s: Step)
    ensures Run(steps + [s]) == Do(Run(steps), s)
  {
    var longer := steps + [s];
    assert longer[..|longer| - 1] == steps;
  }

  lemma MetaFirstSnoc(steps: seq<Step>, s: Step)
    ensures MetaFirst(steps + [s]) <==> MetaFirst(steps) && !IsContentFirst(Run(steps), s)
  {
    var longer := steps + [s];
    assert longer[..|longer| - 1] == steps;
  }

  // ---------- takeovers cost time ----------

  /** Each takeover of a session without torn uploads took five minutes. */
  ghost predicate SpacedOn(w: World, k: Key) {
    k in w.history && w.history[k].torn == 0 ==>
      && w.history[k].created + w.history[k].takeovers * IDLE_LIMIT <= w.clock
      && (k in w.blobs ==> w.history[k].created + w.history[k].takeovers * IDLE_LIMIT <= w.blobs[k].updated)
  }

  ghost predicate Coherent(w: World) { Recorded(w) && forall k | k in w.history :: SpacedOn(w, k) }

  lemma CasSound(w: World, g: nat)
    requires Recorded(w) && Enabled(w, Land(g)) && UploadMatches(w.guards[g], w.blobs) && !IsTornUpload(w, Land(g))
    ensures w.blobs[w.guards[g].key] == w.guards[g].pc.seen
  {
    CasIsExact(w, g);
  }

  lemma SpacedLand(w: World, g: nat, k: Key)
    requires Coherent(w) && Enabled(w, Land(g)) && SpacedOn(w, k)
    ensures SpacedOn(Apply(w, Land(g)), k)
  {
    var guard := w.guards[g];
    assert GuardOk(w, guard);
    if UploadMatches(guard, w.blobs) && !IsTornUpload(w, Land(g)) {
      CasSound(w, g);
      assert BlobOk(w, guard.key);
    }
  }

  lemma SpacedStep(w: World, s: Step, k: Key)
    requires Coherent(w) && SpacedOn(w, k)
    ensures SpacedOn(Do(w, s), k)
  {
    if Enabled(w, s) {
      if s.Land? { SpacedLand(w, s.g, k); }
      else if IsGuardStep(s) { GuardStepMovesOne(w, s); }
    }
  }

  lemma {:induction false} RunsAreCoherent(steps: seq<Step>)
    ensures Coherent(Run(steps))
  {
    RunsAreRecorded(steps);
    if |steps| > 0 {
      var w, s := Run(steps[..|steps| - 1]), steps[|steps| - 1];
      RunsAreCoherent(steps[..|steps| - 1]);
      forall k | k in Run(steps).history ensures SpacedOn(Run(steps), k) { SpacedStep(w, s, k); }
    }
  }

  // ---------- matrix conformance and takeover spacing ----------

  /**
   Every upload that lands without force moves the state stored at that moment along an allowed
   cell of the matrix, the idle time being measured up to the time written with the new state.
   */
  lemma MatrixConformance(steps: seq<Step>, g: nat)
    requires var w := Run(steps);
      Enabled(w, Land(g)) && UploadMatches(w.guards[g], w.blobs) && !IsTornUpload(w, Land(g))
    requires !Forced(Run(steps).guards[g].pc.phase)
    ensures var w := Run(steps); var w' := Run(steps + [Land(g)]); var k := w.guards[g].key;
      && k in w'.blobs
      && MatrixAllows(w.blobs[k].state, w'.blobs[k].state, w'.blobs[k].updated - w.blobs[k].updated)
      && w'.blobs[k].state == Target(w.guards[g].pc.phase, w.guards[g].commit)
      && !(w.blobs[k].state == Abandoning && w'.blobs[k].state == Committing)
  {
    var w := Run(steps);
    RunSnoc(steps, Land(g));
    RunsAreRecorded(steps);
    CasSound(w, g);
    assert GuardOk(w, w.guards[g]);
  }

  /**
   Whatever the step, when it replaces one pending state of a session by another, at least
   five minutes separate the two update times.
   */
  lemma TakeoverSpacing(steps: seq<Step>, s: Step, k: Key)
    requires !IsTornUpload(Run(steps), s)
    requires var w := Run(steps); k in w.blobs && IsPending(w.blobs[k].state)
    requires var w' := Run(steps + [s]); k in w'.blobs && IsPending(w'.blobs[k].state)
    requires Run(steps + [s]).blobs[k] != Run(steps).blobs[k]
    ensures Run(steps + [s]).blobs[k].updated - Run(steps).blobs[k].updated >= 5 * 60 * 1_000_000
    ensures IsTakeover(Run(steps), s)
  {
    var w := Run(steps);
    RunSnoc(steps, s);
    RunsAreRecorded(steps);
    assert BlobOk(w, k);
    assert s.Land?;
    assert w.guards[s.g].key == k;
    CasSound(w, s.g);
    assert GuardOk(w, w.guards[s.g]);
  }

  // ---------- publications are paid for by takeovers ----------

  ghost function UnsettledOf(w: World, k: Key): set<nat> {
    set g | g in w.guards && w.guards[g].key == k && Unsettled(w.guards[g])
  }

  function Credit(w: World, k: Key): nat { if k in w.blobs && w.blobs[k].state == Open then 0 else 1 }

  /** Published versions plus guards that may still publish never exceed takeovers plus one, or plus none if open. */
  ghost predicate BoundedOn(w: World, k: Key) {
    TornUploads(w, k) == 0 ==> |UnsettledOf(w, k)| + Publications(w, k) <= Takeovers(w, k) + Credit(w, k)
  }

  ghost predicate Bounded(w: World) { forall k | k in w.history :: BoundedOn(w, k) }

  lemma Recount(w: World, w': World, g: nat, k: Key)
    requires g in w'.guards && w'.guards == w.guards[g := w'.guards[g]]
    ensures |UnsettledOf(w', k)| == |UnsettledOf(w, k) - {g}| + (if g in UnsettledOf(w', k) then 1 else 0)
    ensures |UnsettledOf(w, k)| == |UnsettledOf(w, k) - {g}| + (if g in UnsettledOf(w, k) then 1 else 0)
  {
    var rest := UnsettledOf(w, k) - {g};
    assert UnsettledOf(w', k) - {g} == rest;
    if g in UnsettledOf(w', k) { assert UnsettledOf(w', k) == rest + {g}; }
    else { assert UnsettledOf(w', k) == rest; }
    if g in UnsettledOf(w, k) { assert UnsettledOf(w, k) == rest + {g}; }
    else { assert UnsettledOf(w, k) == rest; }
  }

  lemma NoneBeforeCreation(w: World, k: Key)
    requires Coherent(w) && k !in w.history
    ensures UnsettledOf(w, k) == {}
  {
    forall g | g in w.guards && w.guards[g].key == k ensures !Unsettled(w.guards[g]) {
      assert GuardOk(w, w.guards[g]);
    }
  }

  /** Becoming unsettled by landing is paid for by a takeover or by closing an open session's credit. */
  lemma LandIsPaid(w: World, g: nat)
    requires Coherent(w) && Enabled(w, Land(g)) && !IsTornUpload(w, Land(g))
    ensures var w' := Apply(w, Land(g)); var k := w.guards[g].key;
      var before, after := if Unsettled(w.guards[g]) then 1 else 0, if Unsettled(w'.guards[g]) then 1 else 0;
      && w'.guards[g].key == k
      && after + Takeovers(w, k) + Credit(w, k) <= before + Takeovers(w', k) + Credit(w', k)
  {
    var guard := w.guards[g];
    assert GuardOk(w, guard);
    if UploadMatches(guard, w.blobs) { CasSound(w, g); }
  }

  lemma LandLeavesOthers(w: World, g: nat, k: Key)
    requires Enabled(w, Land(g))
    ensures var w' := Apply(w, Land(g));
      && Publications(w', k) == Publications(w, k) && TornUploads(w, k) <= TornUploads(w', k)
      && (k != w.guards[g].key ==> Takeovers(w', k) == Takeovers(w, k) && Credit(w', k) == Credit(w, k))
  {
  }

  lemma BoundedLand(w: World, g: nat)
    requires Coherent(w) && Bounded(w) && Enabled(w, Land(g))
    ensures Bounded(Apply(w, Land(g)))
  {
    var w' := Apply(w, Land(g));
    assert GuardOk(w, w.guards[g]);
    if !IsTornUpload(w, Land(g)) { LandIsPaid(w, g); }
    forall k | k in w'.history ensures BoundedOn(w', k) {
      assert BoundedOn(w, k);
      LandLeavesOthers(w, g, k);
      Recount(w, w', g, k);
    }
  }

  /** Only the holder of a session can publish in it. */
  lemma OthersKeepPublications(w: World, s: Step, k: Key)
    requires Enabled(w, s) && IsGuardStep(s)
    ensures Takeovers(Apply(w, s), k) == Takeovers(w, k) && TornUploads(Apply(w, s), k) == TornUploads(w, k)
    ensures (s.Publish? && w.guards[s.g].key == k) || Publications(Apply(w, s), k) == Publications(w, k)
  {
  }

  /** A guard step never makes its guard unsettled, and publishing settles it. */
  lemma GuardStepSettles(w: World, s: Step)
    requires Enabled(w, s) && IsGuardStep(s)
    ensures var moved := Apply(w, s).guards[s.g];
      && (Unsettled(moved) ==> s.g in w.guards && Unsettled(w.guards[s.g]) && w.guards[s.g].key == moved.key)
      && (s.Publish? ==> Unsettled(w.guards[s.g]) && !Unsettled(moved)
                         && Publications(Apply(w, s), w.guards[s.g].key) == Publications(w, w.guards[s.g].key) + 1)
  {
  }

  lemma BoundedGuardStep(w: World, s: Step)
    requires Coherent(w) && Bounded(w) && Enabled(w, s) && IsGuardStep(s)
    ensures Bounded(Apply(w, s))
  {
    var w' := Apply(w, s);
    if s.Publish? { assert GuardOk(w, w.guards[s.g]); }
    GuardStepSettles(w, s);
    forall k | k in w'.history
      ensures BoundedOn(w', k)
    {
      Recount(w, w', s.g, k);
      OthersKeepPublications(w, s, k);
      assert BoundedOn(w, k);
    }
  }

  lemma BoundedStoreStep(w: World, s: Step)
    requires Coherent(w) && Bounded(w) && Enabled(w, s)
    requires s.Tick? || s.Create? || s.ApproveDelete? || s.LandDelete?
    ensures Bounded(Apply(w, s))
  {
    var w' := Apply(w, s);
    forall k | k in w'.history
      ensures BoundedOn(w', k)
    {
      assert UnsettledOf(w', k) == UnsettledOf(w, k);
      if k in w.history { assert BoundedOn(w, k); } else { NoneBeforeCreation(w, k); }
    }
  }

  lemma {:induction false} RunsAreBounded(steps: seq<Step>)
    ensures Bounded(Run(steps))
  {
    if |steps| > 0 {
      var before, s := steps[..|steps| - 1], steps[|steps| - 1];
      RunsAreCoherent(before);
      RunsAreBounded(before);
      if Enabled(Run(before), s) {
        if s.Land? { BoundedLand(Run(before), s.g); }
        else if IsGuardStep(s) { BoundedGuardStep(Run(before), s); }
        else { BoundedStoreStep(Run(before), s); }
      }
    }
  }

  /**
   Over every run, takeovers and crashes included: a session without torn uploads publishes at most one
   version more than the number of takeovers it suffered, none more while it is stored as open, and takeovers
   are at least five minutes of session life apart.
   */
  lemma PublicationsBoundedByTakeovers(steps: seq<Step>, k: Key)
    requires TornUploads(Run(steps), k) == 0
    ensures var w := Run(steps);
      && Publications(w, k) <= Takeovers(w, k) + 1
      && (k in w.blobs && w.blobs[k].state == Open ==> Publications(w, k) <= Takeovers(w, k))
      && (k in w.history ==> Takeovers(w, k) * (5 * 60 * 1_000_000) <= w.clock - w.history[k].created)
  {
    RunsAreCoherent(steps);
    RunsAreBounded(steps);
    if k in Run(steps).history { assert BoundedOn(Run(steps), k) && SpacedOn(Run(steps), k); }
    if k in Run(steps).blobs { assert BlobOk(Run(steps), k); }
  }

  // ---------- sessions on which neither a takeover nor a torn upload has landed ----------

  ghost predicate ReadsCurrent(pc: Pc, b: Blob) {
    match pc
    case Reading(_, m, c) => (m.Some? ==> m.value == b.etag) && (c.Some? ==> c.value == b)
    case Checked(_, m, seen, _) => m == b.etag && seen == b
    case Sent(_, m, seen, _, _) => m == b.etag && seen == b
    case _ => true
  }

  /** The session of a holding guard: nobody else holds it, and it is stored as that guard left it. */
  ghost predicate HolderOk(w: World, g: nat)
    requires g in w.guards
  {
    var guard := w.guards[g];
    var k := guard.key;
    && (forall h | h in w.guards && Holds(w.guards[h]) && w.guards[h].key == k :: h == g)
    && (k in w.blobs ==> w.blobs[k].state == PendingState(guard.commit) && ReadsCurrent(guard.pc, w.blobs[k]))
    && Publications(w, k) == (if Closing(guard) && guard.commit then 1 else 0)
  }

  ghost predicate StoredOk(w: World, k: Key)
    requires k in w.blobs
  {
    match w.blobs[k].state
    case Committing => true
    case Committed => Publications(w, k) == 1
    case _ => Publications(w, k) == 0
  }

  /** Neither a takeover nor a torn upload has landed on the session. */
  predicate Undisturbed(w: World, k: Key) { Takeovers(w, k) == 0 && TornUploads(w, k) == 0 }

  ghost predicate Exclusive(w: World) {
    && (forall g | g in w.guards && Holds(w.guards[g]) && Undisturbed(w, w.guards[g].key) :: HolderOk(w, g))
    && (forall k | k in w.blobs && Undisturbed(w, k) :: StoredOk(w, k))
    && (forall d | d in w.deleters && !w.deleters[d].force && w.deleters[d].key in w.blobs
                   && Undisturbed(w, w.deleters[d].key) :: IsClosed(w.blobs[w.deleters[d].key].state))
  }

  /** What an accepted upload finds on an undisturbed session. */
  lemma UncontestedLand(w: World, g: nat)
    requires Coherent(w) && Exclusive(w) && Enabled(w, Land(g)) && UploadMatches(w.guards[g], w.blobs)
    requires Undisturbed(w, w.guards[g].key) && !IsTakeover(w, Land(g)) && !IsTornUpload(w, Land(g))
    ensures var guard := w.guards[g]; var k := guard.key;
      && (guard.pc.phase.Enter? ==>
            w.blobs[k].state == Open && forall h | h in w.guards && Holds(w.guards[h]) :: w.guards[h].key != k)
      && (guard.pc.phase.Leave? ==> w.blobs[k].state == PendingState(guard.commit) && HolderOk(w, g))
  {
    var guard := w.guards[g];
    var k := guard.key;
    CasSound(w, g);
    assert GuardOk(w, guard);
    if guard.pc.phase.Enter? {
      assert forall h | h in w.guards && Holds(w.guards[h]) :: w.guards[h].key == k ==> HolderOk(w, h);
    } else {
      assert HolderOk(w, g);
    }
  }

  lemma ExclusiveOtherHolder(w: World, w': World, g: nat, h: nat)
    requires g in w.guards && g in w'.guards && w'.guards == w.guards[g := w'.guards[g]]
    requires w'.guards[g].key == w.guards[g].key
    requires h != g && h in w.guards && HolderOk(w, h)
    requires w.guards[g].key == w.guards[h].key ==> !Holds(w'.guards[g])
    requires var k := w.guards[h].key;
      Publications(w', k) == Publications(w, k) && (k in w'.blobs ==> k in w.blobs && w'.blobs[k] == w.blobs[k])
    ensures HolderOk(w', h)
  {
  }

  /** The session of a guard whose upload leaves it undisturbed. */
  lemma ExclusiveLander(w: World, g: nat)
    requires Coherent(w) && Exclusive(w) && Enabled(w, Land(g))
    requires Undisturbed(Apply(w, Land(g)), w.guards[g].key)
    ensures var w' := Apply(w, Land(g)); var k := w.guards[g].key;
      && w'.guards[g].key == k
      && (k in w'.blobs ==> StoredOk(w', k))
      && (Holds(w'.guards[g]) ==> HolderOk(w', g))
      && (UploadMatches(w.guards[g], w.blobs) ==>
            forall h | h in w.guards && h != g && Holds(w.guards[h]) :: w.guards[h].key != k)
      && (UploadMatches(w.guards[g], w.blobs) ==> !IsClosed(w.blobs[k].state))
  {
    var k := w.guards[g].key;
    assert GuardOk(w, w.guards[g]);
    if k in w.blobs { assert StoredOk(w, k); }
    if UploadMatches(w.guards[g], w.blobs) { UncontestedLand(w, g); }
  }

  lemma ExclusiveLand(w: World, g: nat)
    requires Coherent(w) && Exclusive(w) && Enabled(w, Land(g))
    ensures Exclusive(Apply(w, Land(g)))
  {
    var w' := Apply(w, Land(g));
    if Undisturbed(w', w.guards[g].key) { ExclusiveLander(w, g); }
    forall h | h in w'.guards && Holds(w'.guards[h]) && Undisturbed(w', w'.guards[h].key)
      ensures HolderOk(w', h)
    {
      if h != g {
        assert HolderOk(w, h);
        ExclusiveOtherHolder(w, w', g, h);
      }
    }
    forall k | k in w'.blobs && Undisturbed(w', k) ensures StoredOk(w', k) {
      assert StoredOk(w, k);
    }
  }

  /** A guard step never makes its guard hold a session it did not hold, and a holder reads what is stored. */
  lemma HolderMoves(w: World, s: Step)
    requires Coherent(w) && Exclusive(w) && Enabled(w, s) && IsGuardStep(s)
    requires Holds(Apply(w, s).guards[s.g]) && Undisturbed(w, Apply(w, s).guards[s.g].key)
    ensures s.g in w.guards && Holds(w.guards[s.g]) && Apply(w, s).guards[s.g].key == w.guards[s.g].key
    ensures HolderOk(Apply(w, s), s.g)
  {
    assert Holds(w.guards[s.g]);
    assert GuardOk(w, w.guards[s.g]);
    assert HolderOk(w, s.g);
  }

  lemma ExclusiveGuardStep(w: World, s: Step)
    requires Coherent(w) && Exclusive(w) && Enabled(w, s) && IsGuardStep(s)
    ensures Exclusive(Apply(w, s))
  {
    var w' := Apply(w, s);
    forall h | h in w'.guards && Holds(w'.guards[h]) && Undisturbed(w', w'.guards[h].key)
      ensures HolderOk(w', h)
    {
      OthersKeepPublications(w, s, w'.guards[h].key);
      if h == s.g { HolderMoves(w, s); }
      else { assert HolderOk(w, h); }
    }
    forall k | k in w'.blobs && Undisturbed(w', k) ensures StoredOk(w', k) {
      OthersKeepPublications(w, s, k);
      assert StoredOk(w, k);
      if s.Publish? && w.guards[s.g].key == k { assert HolderOk(w, s.g); }
    }
    forall d | d in w'.deleters
      ensures Undisturbed(w', w'.deleters[d].key) <==> Undisturbed(w, w.deleters[d].key)
    {
      OthersKeepPublications(w, s, w'.deleters[d].key);
    }
  }

  lemma ExclusiveStoreStep(w: World, s: Step)
    requires Coherent(w) && Exclusive(w) && Enabled(w, s)
    requires s.Tick? || s.Create? || s.ApproveDelete? || s.LandDelete?
    ensures Exclusive(Apply(w, s))
  {
    var w' := Apply(w, s);
    forall h | h in w'.guards && Holds(w'.guards[h]) && Undisturbed(w', w'.guards[h].key)
      ensures HolderOk(w', h)
    {
      assert GuardOk(w, w.guards[h]);
      assert HolderOk(w, h);
    }
    forall k | k in w'.blobs && Undisturbed(w', k) ensures StoredOk(w', k) {
      if k in w.blobs { assert StoredOk(w, k); }
    }
  }

  lemma {:induction false} RunsAreExclusive(steps: seq<Step>)
    ensures Exclusive(Run(steps))
  {
    if |steps| > 0 {
      var before, s := steps[..|steps| - 1], steps[|steps| - 1];
      RunsAreCoherent(before);
      RunsAreExclusive(before);
      if Enabled(Run(before), s) {
        if s.Land? { ExclusiveLand(Run(before), s.g); }
        else if IsGuardStep(s) { ExclusiveGuardStep(Run(before), s); }
        else { ExclusiveStoreStep(Run(before), s); }
      }
    }
  }

  // ---------- theorems about every run ----------

  /** On an undisturbed session at most one live guard is armed, and what is stored is its pending state. */
  lemma MutualExclusion(steps: seq<Step>, g: nat, h: nat)
    requires var w := Run(steps);
      && g in w.guards && Armed(w.guards[g]) && h in w.guards && Armed(w.guards[h])
      && w.guards[g].key == w.guards[h].key && Undisturbed(w, w.guards[g].key)
    ensures g == h
    ensures var w := Run(steps); var k := w.guards[g].key;
      k in w.blobs ==> w.blobs[k].state == PendingState(w.guards[g].commit)
  {
    RunsAreExclusive(steps);
    assert HolderOk(Run(steps), g);
  }

  /** An undisturbed session publishes at most one version, none if open or abandoned, one if committed. */
  lemma PublishOnce(steps: seq<Step>, k: Key)
    requires Undisturbed(Run(steps), k)
    ensures var w := Run(steps);
      && Publications(w, k) <= 1
      && (k in w.blobs && w.blobs[k].state in {Open, Abandoning, Abandoned} ==> Publications(w, k) == 0)
      && (k in w.blobs && w.blobs[k].state == Committed ==> Publications(w, k) == 1)
  {
    PublicationsBoundedByTakeovers(steps, k);
    RunsAreExclusive(steps);
    if k in Run(steps).blobs { assert StoredOk(Run(steps), k); }
  }

  ghost predicate CommitsPublished(w: World) {
    && (forall g | g in w.guards && Closing(w.guards[g]) && w.guards[g].commit :: Publications(w, w.guards[g].key) >= 1)
    && (forall k | k in w.blobs && w.blobs[k].state == Committed :: Publications(w, k) >= 1)
    && w.blobs.Keys <= w.history.Keys
  }

  lemma PublicationsGrow(w: World, s: Step, k: Key)
    ensures Publications(w, k) <= Publications(Do(w, s), k) || k !in w.history
    ensures w.history.Keys <= Do(w, s).history.Keys
  {
  }

  lemma CommitsPublishedStep(w: World, s: Step)
    requires CommitsPublished(w)
    ensures CommitsPublished(Do(w, s))
  {
    var w' := Do(w, s);
    forall g | g in w'.guards && Closing(w'.guards[g]) && w'.guards[g].commit
      ensures Publications(w', w'.guards[g].key) >= 1
    {
      PublicationsGrow(w, s, w'.guards[g].key);
    }
    forall k | k in w'.blobs && w'.blobs[k].state == Committed ensures Publications(w', k) >= 1 {
      PublicationsGrow(w, s, k);
    }
  }

  /** In every run whatever, takeovers and torn reads included, a committed session has published. */
  lemma {:induction false} CommittedHasPublished(steps: seq<Step>, k: Key)
    ensures CommitsPublished(Run(steps))
    ensures k in Run(steps).blobs && Run(steps).blobs[k].state == Committed ==> Publications(Run(steps), k) >= 1
  {
    if |steps| > 0 {
      CommittedHasPublished(steps[..|steps| - 1], k);
      CommitsPublishedStep(Run(steps[..|steps| - 1]), steps[|steps| - 1]);
    }
  }

  /** The step is a forced rollback whose upload finds the etag it read still stored. */
  predicate IsAcceptedRollback(w: World, s: Step, k: Key) {
    s.Land? && Enabled(w, s) && w.guards[s.g].key == k
    && Forced(w.guards[s.g].pc.phase) && UploadMatches(w.guards[s.g], w.blobs)
  }

  /**
   A closed session stays exactly as stored until it is deleted; the only step that rewrites it is an
   accepted forced rollback, which reopens it, and that needs a takeover or torn upload on the session before.
   */
  lemma ClosedIsFinal(steps: seq<Step>, s: Step, k: Key)
    requires !IsTornUpload(Run(steps), s)
    requires k in Run(steps).blobs && IsClosed(Run(steps).blobs[k].state)
    ensures var w, w' := Run(steps), Run(steps + [s]);
      && (k !in w'.blobs <==> s.LandDelete? && s.d in w.deleters && w.deleters[s.d].key == k)
      && (k in w'.blobs ==> (w'.blobs[k] != w.blobs[k] <==> IsAcceptedRollback(w, s, k)))
      && (IsAcceptedRollback(w, s, k) ==> k in w'.blobs && w'.blobs[k].state == Open && !Undisturbed(w, k))
  {
    var w := Run(steps);
    RunSnoc(steps, s);
    RunsAreCoherent(steps);
    RunsAreExclusive(steps);
    assert BlobOk(w, k);
    if s.Land? && Enabled(w, s) && w.guards[s.g].key == k && UploadMatches(w.guards[s.g], w.blobs) {
      CasSound(w, s.g);
      assert GuardOk(w, w.guards[s.g]);
    }
  }

  /** Deletion without force, on an undisturbed session, only ever removes a closed session. */
  lemma UnforcedDeleteRemovesClosed(steps: seq<Step>, d: nat)
    requires var w := Run(steps); d in w.deleters && !w.deleters[d].force
    requires Undisturbed(Run(steps), Run(steps).deleters[d].key)
    ensures var w := Run(steps); w.deleters[d].key in w.blobs ==> IsClosed(w.blobs[w.deleters[d].key].state)
  {
    RunsAreExclusive(steps);
  }

  /**
   On an undisturbed session that is not deleted, leaving the guard cannot go wrong: no assertion
   of the closing check fails and the conditional upload is accepted.
   */
  lemma LeavingAlwaysLands(steps: seq<Step>, g: nat)
    requires var w := Run(steps);
      && g in w.guards && Holds(w.guards[g]) && w.guards[g].key in w.blobs && Undisturbed(w, w.guards[g].key)
    ensures var w := Run(steps);
      && (Enabled(w, Check(g)) ==> AfterCheck(w.guards[g], w.clock).pc.Checked?)
      && (Enabled(w, Land(g)) ==> UploadMatches(w.guards[g], w.blobs))
  {
    RunsAreExclusive(steps);
    assert HolderOk(Run(steps), g);
  }
}
