/**
 The bulk-write session protocol.

 A session is one blob (state, updatedTime) stored under an etag.  Any number of
 completion guards, each in its own request, read it, check the state matrix and
 rewrite it with a conditional upload.  Everything between two awaits of the source
 is one atomic step here; any interleaving of steps is a run.
 */
module SessionProtocol {
  import opened Wrappers

  // ---------- the documented state matrix and the check that implements it ----------

  datatype SessionState = Open | Committing | Abandoning | Committed | Abandoned

  predicate IsClosed(s: SessionState) { s == Committed || s == Abandoned }

  predicate IsPending(s: SessionState) { s == Committing || s == Abandoning }

  /** Clock readings, in microseconds. */
  type Time = int

  /** Five minutes. */
  const IDLE_LIMIT: Time := 300_000_000

  datatype Cell = Never | Always | AfterTimeout

  /** The table in the documentation of the state update: rows are actual states, columns requested ones. */
  function MatrixCell(actual: SessionState, requested: SessionState): Cell {
    match (actual, requested)
    case (Open, Committing) => Always
    case (Open, Abandoning) => Always
    case (Committing, Committing) => AfterTimeout
    case (Committing, Committed) => Always
    case (Committing, Abandoning) => AfterTimeout
    case (Abandoning, Abandoning) => AfterTimeout
    case (Abandoning, Abandoned) => Always
    case (_, _) => Never
  }

  predicate MatrixAllows(actual: SessionState, requested: SessionState, idle: Time) {
    match MatrixCell(actual, requested)
    case Never => false
    case Always => true
    case AfterTimeout => idle >= IDLE_LIMIT
  }

  datatype Verdict = Allowed | AlreadyClosed | Busy | CannotCommit | AssertionFailed

  /** The checks made before a state update is written; a forced update skips all of them. */
  function CheckUpdate(actual: SessionState, requested: SessionState, force: bool, idle: Time): (v: Verdict)
    ensures v.Allowed? <==> force || MatrixAllows(actual, requested, idle)
  {
    if force then Allowed
    else if requested == Open then AssertionFailed
    else if IsClosed(actual) then AlreadyClosed
    else if requested == Committed then
      if actual == Committing then Allowed else AssertionFailed
    else if requested == Abandoned then
      if actual == Abandoning then Allowed else AssertionFailed
    else if actual != Open then
      if idle < IDLE_LIMIT then Busy
      else if requested == Committing && actual == Abandoning then CannotCommit
      else Allowed
    else Allowed
  }

  /** The cells that allow a move, those of the pending states only after five minutes of idleness. */
  lemma MatrixIsDocumented(actual: SessionState, requested: SessionState, idle: Time)
    ensures MatrixAllows(actual, requested, idle) <==>
      || (actual == Open && requested in {Committing, Abandoning})
      || (actual == Committing && requested == Committed)
      || (actual == Abandoning && requested == Abandoned)
      || (actual == Committing && requested in {Committing, Abandoning} && idle >= 5 * 60 * 1_000_000)
      || (actual == Abandoning && requested == Abandoning && idle >= 5 * 60 * 1_000_000)
  {
  }

  /** Why an update that is not forced is refused. */
  lemma RefusalsAreExact(actual: SessionState, requested: SessionState, idle: Time)
    ensures var v := CheckUpdate(actual, requested, false, idle);
      && (v == AlreadyClosed <==> actual in {Committed, Abandoned} && requested != Open)
      && (v == Busy <==> actual in {Committing, Abandoning} && requested in {Committing, Abandoning}
                         && idle < 5 * 60 * 1_000_000)
      && (v == CannotCommit <==> actual == Abandoning && requested == Committing && idle >= 5 * 60 * 1_000_000)
      && (v == AssertionFailed <==>
            || requested == Open
            || (requested == Committed && actual in {Open, Abandoning})
            || (requested == Abandoned && actual in {Open, Committing}))
  {
  }

  // ---------- one completion guard, between two awaits ----------

  type Key = string

  /** What a session was created for: the base version, update or overwrite, and its note on extended loading. */
  datatype Terms = Terms(fromVersion: nat, update: bool, loadCompleted: Option<string>)

  datatype Blob = Blob(etag: nat, state: SessionState, updated: Time, terms: Terms)

  /** Entering the guarded block, or leaving it after success or after an exception. */
  datatype Phase = Enter | Leave(failed: bool)

  /**
   Where a guard is.  `content` carries the etag under which the content was stored when
   it was read; the source does not receive it, no decision below looks at it.
   */
  datatype Pc =
    | Reading(phase: Phase, meta: Option<nat>, content: Option<Blob>)
    | Checked(phase: Phase, ifMatch: nat, seen: Blob, at: Time)
    | Sent(phase: Phase, ifMatch: nat, seen: Blob, at: Time, stamp: Time)
    | Body
    | Ended(outcome: Outcome)

  datatype Outcome = Completed | RolledBack | NotFound | Refused(why: Verdict) | EtagUnmatched | Died

  /** A guard that is not alive takes no more steps, but a request it already sent may still land. */
  datatype Guard = Guard(key: Key, commit: bool, alive: bool, pc: Pc)

  function PendingState(commit: bool): SessionState { if commit then Committing else Abandoning }

  function ClosedState(commit: bool): SessionState { if commit then Committed else Abandoned }

  function Target(phase: Phase, commit: bool): SessionState {
    match phase
    case Enter => PendingState(commit)
    case Leave(false) => ClosedState(commit)
    case Leave(true) => Open
  }

  predicate Forced(phase: Phase) { phase == Leave(true) }

  /** The entry write has landed and the exit write has neither landed nor been refused. */
  predicate Holds(g: Guard) {
    match g.pc
    case Body => true
    case Reading(p, _, _) => p.Leave?
    case Checked(p, _, _, _) => p.Leave?
    case Sent(p, _, _, _, _) => p.Leave?
    case Ended(_) => false
  }

  predicate Armed(g: Guard) { g.alive && Holds(g) }

  /** The guard runs its body, or is rolling back: it has published nothing. */
  predicate Unsettled(g: Guard) {
    match g.pc
    case Body => true
    case Reading(p, _, _) => p == Leave(true)
    case Checked(p, _, _, _) => p == Leave(true)
    case Sent(p, _, _, _, _) => p == Leave(true)
    case Ended(_) => false
  }

  /** The body returned normally and the closing write is under way. */
  predicate Closing(g: Guard) { Holds(g) && !Unsettled(g) }

  function AfterReadMeta(g: Guard, blobs: map<Key, Blob>): Guard
    requires g.pc.Reading?
  {
    if g.key in blobs then g.(pc := g.pc.(meta := Some(blobs[g.key].etag)))
    else g.(pc := Ended(NotFound))
  }

  function AfterReadContent(g: Guard, blobs: map<Key, Blob>): Guard
    requires g.pc.Reading?
  {
    if g.key in blobs then g.(pc := g.pc.(content := Some(blobs[g.key])))
    else g.(pc := Ended(NotFound))
  }

  function AfterCheck(g: Guard, now: Time): Guard
    requires g.pc.Reading? && g.pc.meta.Some? && g.pc.content.Some?
  {
    var seen := g.pc.content.value;
    var v := CheckUpdate(seen.state, Target(g.pc.phase, g.commit), Forced(g.pc.phase), now - seen.updated);
    g.(pc := if v.Allowed? then Checked(g.pc.phase, g.pc.meta.value, seen, now) else Ended(Refused(v)))
  }

  function AfterStamp(g: Guard, now: Time): Guard
    requires g.pc.Checked?
  {
    g.(pc := Sent(g.pc.phase, g.pc.ifMatch, g.pc.seen, g.pc.at, now))
  }

  /** The If-Match rule: the upload is performed exactly when the stored etag is still the one read. */
  predicate UploadMatches(g: Guard, blobs: map<Key, Blob>)
    requires g.pc.Sent?
  {
    g.key in blobs && blobs[g.key].etag == g.pc.ifMatch
  }

  function AfterLand(g: Guard, blobs: map<Key, Blob>): Guard
    requires g.pc.Sent?
  {
    g.(pc := if !UploadMatches(g, blobs) then Ended(EtagUnmatched)
             else match g.pc.phase
               case Enter => if g.alive then Body else Ended(Died)
               case Leave(failed) => Ended(if failed then RolledBack else Completed))
  }

  function BlobsAfterLand(g: Guard, blobs: map<Key, Blob>, etag: nat): map<Key, Blob>
    requires g.pc.Sent?
  {
    if UploadMatches(g, blobs) then
      blobs[g.key := Blob(etag, Target(g.pc.phase, g.commit), g.pc.stamp, g.pc.seen.terms)]
    else blobs
  }

  function AfterBody(g: Guard, failed: bool): Guard
    requires g.pc.Body?
  {
    g.(pc := Reading(Leave(failed), None, None))
  }

  // ---------- the whole deployment ----------

  /** What happened to a session so far: history only, no step reads it. */
  datatype History = History(created: Time, takeovers: nat, torn: nat, published: seq<nat>, terms: Terms)

  /** A deletion request that passed its check and has not reached the store yet. */
  datatype Deleter = Deleter(key: Key, force: bool)

  datatype World = World(
    clock: Time,
    nextEtag: nat,
    blobs: map<Key, Blob>,
    guards: map<nat, Guard>,
    deleters: map<nat, Deleter>,
    history: map<Key, History>)

  const INITIAL := World(0, 0, map[], map[], map[], map[])

  datatype Step =
    | Tick(elapsed: nat)
    | Create(key: Key, terms: Terms)
    | Begin(g: nat, key: Key, commit: bool)
    | ReadMeta(g: nat)
    | ReadContent(g: nat)
    | Check(g: nat)
    | Stamp(g: nat)
    | Land(g: nat)
    | Publish(g: nat, version: nat)
    | FinishAbandon(g: nat)
    | Raise(g: nat)
    | Crash(g: nat)
    | ApproveDelete(d: nat, key: Key, force: bool)
    | LandDelete(d: nat)

  function Past(w: World, k: Key): History {
    if k in w.history then w.history[k] else History(0, 0, 0, [], Terms(0, false, None))
  }

  predicate Live(w: World, g: nat) { g in w.guards && w.guards[g].alive }

  predicate Enabled(w: World, s: Step) {
    match s
    case Tick(_) => true
    case Create(k, _) => k !in w.history                       // session ids are fresh
    case Begin(g, _, _) => g !in w.guards
    case ReadMeta(g) => Live(w, g) && w.guards[g].pc.Reading? && w.guards[g].pc.meta.None?
    case ReadContent(g) => Live(w, g) && w.guards[g].pc.Reading? && w.guards[g].pc.content.None?
    case Check(g) =>
      Live(w, g) && w.guards[g].pc.Reading? && w.guards[g].pc.meta.Some? && w.guards[g].pc.content.Some?
    case Stamp(g) => Live(w, g) && w.guards[g].pc.Checked?
    case Land(g) => g in w.guards && w.guards[g].pc.Sent?   // in flight, whether or not the sender is alive
    case Publish(g, _) => Live(w, g) && w.guards[g].pc.Body? && w.guards[g].commit
    case FinishAbandon(g) => Live(w, g) && w.guards[g].pc.Body? && !w.guards[g].commit
    case Raise(g) => Live(w, g) && w.guards[g].pc.Body?
    case Crash(g) => Live(w, g)
    case ApproveDelete(d, k, force) =>
      d !in w.deleters && k in w.blobs && (force || IsClosed(w.blobs[k].state))
    case LandDelete(d) => d in w.deleters
  }

  function SetGuard(w: World, g: nat, guard: Guard): World { w.(guards := w.guards[g := guard]) }

  /** An entry write that lands on a state another completion left pending. */
  predicate IsTakeover(w: World, s: Step) {
    s.Land? && Enabled(w, s) && w.guards[s.g].pc.phase.Enter? && UploadMatches(w.guards[s.g], w.blobs)
    && IsPending(w.blobs[w.guards[s.g].key].state)
  }

  /**
   The upload is accepted although the content was read before the write whose etag it presents.  The two
   reads are issued together, so the content may be read first and another upload land before the metadata is.
   */
  predicate IsTornUpload(w: World, s: Step) {
    s.Land? && Enabled(w, s) && UploadMatches(w.guards[s.g], w.blobs)
    && w.guards[s.g].pc.seen.etag < w.guards[s.g].pc.ifMatch
  }

  /** The history of the session an upload lands on. */
  function HistoryAfterLand(w: World, g: nat): History
    requires Enabled(w, Land(g))
  {
    var past := Past(w, w.guards[g].key);
    past.(takeovers := past.takeovers + (if IsTakeover(w, Land(g)) then 1 else 0),
          torn := past.torn + (if IsTornUpload(w, Land(g)) then 1 else 0))
  }

  function ApplyLand(w: World, g: nat): World
    requires Enabled(w, Land(g))
  {
    var guard := w.guards[g];
    w.(guards := w.guards[g := AfterLand(guard, w.blobs)],
       blobs := BlobsAfterLand(guard, w.blobs, w.nextEtag),
       nextEtag := w.nextEtag + 1,
       history := if UploadMatches(guard, w.blobs) then w.history[guard.key := HistoryAfterLand(w, g)] else w.history)
  }

  function Apply(w: World, s: Step): World
    requires Enabled(w, s)
  {
    match s
    case Tick(e) => w.(clock := w.clock + e)
    case Create(k, terms) =>
      w.(blobs := w.blobs[k := Blob(w.nextEtag, Open, w.clock, terms)], nextEtag := w.nextEtag + 1,
         history := w.history[k := History(w.clock, 0, 0, [], terms)])
    case Begin(g, k, commit) => SetGuard(w, g, Guard(k, commit, true, Reading(Enter, None, None)))
    case ReadMeta(g) => SetGuard(w, g, AfterReadMeta(w.guards[g], w.blobs))
    case ReadContent(g) => SetGuard(w, g, AfterReadContent(w.guards[g], w.blobs))
    case Check(g) => SetGuard(w, g, AfterCheck(w.guards[g], w.clock))
    case Stamp(g) => SetGuard(w, g, AfterStamp(w.guards[g], w.clock))
    case Land(g) => ApplyLand(w, g)
    case Publish(g, v) =>
      var k := w.guards[g].key;
      SetGuard(w, g, AfterBody(w.guards[g], false))
        .(history := w.history[k := Past(w, k).(published := Past(w, k).published + [v])])
    case FinishAbandon(g) => SetGuard(w, g, AfterBody(w.guards[g], false))
    case Raise(g) => SetGuard(w, g, AfterBody(w.guards[g], true))
    case Crash(g) => SetGuard(w, g, w.guards[g].(alive := false))
    case ApproveDelete(d, k, force) => w.(deleters := w.deleters[d := Deleter(k, force)])
    case LandDelete(d) => w.(blobs := w.blobs - {w.deleters[d].key}, deleters := w.deleters - {d})
  }

  /** A step that is not enabled changes nothing, so every sequence of steps is a run. */
  function Do(w: World, s: Step): World { if Enabled(w, s) then Apply(w, s) else w }

  function Run(steps: seq<Step>): World {
    if |steps| == 0 then INITIAL
    else Do(Run(steps[..|steps| - 1]), steps[|steps| - 1])
  }

  /** A content read of a pair whose metadata has not been read yet. */
  predicate IsContentFirst(w: World, s: Step) {
    s.ReadContent? && Enabled(w, s) && w.guards[s.g].pc.meta.None?
  }

  /** Runs in which every metadata read happens no later than the content read of the same pair. */
  predicate MetaFirst(steps: seq<Step>) {
    |steps| == 0
    || (MetaFirst(steps[..|steps| - 1]) && !IsContentFirst(Run(steps[..|steps| - 1]), steps[|steps| - 1]))
  }

  function Takeovers(w: World, k: Key): nat { Past(w, k).takeovers }

  /** Torn uploads accepted for the session so far. */
  function TornUploads(w: World, k: Key): nat { Past(w, k).torn }

  function Publications(w: World, k: Key): nat { |Past(w, k).published| }
}
