/**
 The storage client and the completion guard as the objects they are: fields rewritten by methods.
 Each method between two awaits is proved to be the matching step of the protocol, through `View`; `UpdateState`,
 `EnterGuard` and `ExitGuard` compose those steps when nobody interferes.
 */
module SessionsStorage {
  import opened Wrappers
  import opened SessionProtocol
  import opened Text

  /** Name under which a session is stored. */
  function SessionName(recordId: string, sessionId: string): string {
    "sessions/" + recordId + "/" + sessionId
  }

  /** Session ids are UUIDs printed with 36 characters, so two sessions never share a blob. */
  lemma SessionNamesAreDistinct(r1: string, s1: string, r2: string, s2: string)
    requires |s1| == |s2|
    ensures SessionName(r1, s1) == SessionName(r2, s2) <==> r1 == r2 && s1 == s2
  {
    var a, b := SessionName(r1, s1), SessionName(r2, s2);
    if a == b {
      assert a[|a| - |s1|..] == s1 && b[|b| - |s2|..] == s2;
      assert a[9..|a| - |s1| - 1] == r1 && b[9..|b| - |s2| - 1] == r2;
    }
  }

  /** Listing by record finds its sessions, and the last segment of each name is the session id. */
  lemma SessionsAreListed(r1: string, r2: string, s: string)
    requires '/' !in r1 && '/' !in r2 && '/' !in s
    ensures SessionName(r1, "") <= SessionName(r2, s) <==> r1 == r2
    ensures Split(SessionName(r2, s), '/') == ["sessions", r2, s]
  {
    SplitNone(s, '/');
    SplitCons(r2, s, '/');
    SplitCons("sessions", r2 + "/" + s, '/');
    assert SessionName(r2, s) == "sessions" + "/" + (r2 + "/" + s);
    var p, n := SessionName(r1, ""), SessionName(r2, s);
    if p <= n {
      assert p == n[..|p|];
      assert p[9..9 + |r1|] == r1 && p[9 + |r1|] == '/';
      assert n[9..9 + |r2|] == r2;
    }
    if r1 == r2 { assert n[..|p|] == p; }
  }

  class BlobContainer {
    var blobs: map<Key, Blob>
    var nextEtag: nat

    constructor ()
      ensures blobs == map[] && nextEtag == 0
    {
      blobs, nextEtag := map[], 0;
    }

    /** Conditional upload: with an etag it is refused unless that etag is the stored one. */
    method Upload(name: Key, state: SessionState, updated: Time, terms: Terms, ifMatch: Option<nat>)
      returns (etag: Option<nat>)
      modifies this
      ensures etag.Some? <==> ifMatch.None? || (name in old(blobs) && old(blobs[name].etag) == ifMatch.value)
      ensures etag.Some? ==>
        etag.value == old(nextEtag) && blobs == old(blobs)[name := Blob(old(nextEtag), state, updated, terms)]
      ensures etag.None? ==> blobs == old(blobs)
      ensures nextEtag == old(nextEtag) + 1
    {
      if ifMatch.None? || (name in blobs && blobs[name].etag == ifMatch.value) {
        blobs := blobs[name := Blob(nextEtag, state, updated, terms)];
        etag := Some(nextEtag);
      } else {
        etag := None;
      }
      nextEtag := nextEtag + 1;
    }

    method DownloadMetadata(name: Key) returns (etag: Option<nat>)
      ensures etag == if name in blobs then Some(blobs[name].etag) else None
    {
      etag := if name in blobs then Some(blobs[name].etag) else None;
    }

    method Download(name: Key) returns (content: Option<Blob>)
      ensures content == if name in blobs then Some(blobs[name]) else None
    {
      content := if name in blobs then Some(blobs[name]) else None;
    }

    method Delete(name: Key)
      modifies this`blobs
      ensures blobs == old(blobs) - {name}
    {
      blobs := blobs - {name};
    }

    /** A session starts open, under a name not used before. */
    method CreateSession(recordId: string, sessionId: string, now: Time, terms: Terms) returns (etag: nat)
      modifies this
      ensures etag == old(nextEtag) && nextEtag == old(nextEtag) + 1
      ensures blobs == old(blobs)[SessionName(recordId, sessionId) := Blob(etag, Open, now, terms)]
    {
      var r := Upload(SessionName(recordId, sessionId), Open, now, terms, None);
      etag := r.value;
    }

    /** Deletes a closed session, or any session when forced; otherwise reports and changes nothing. */
    method DeleteSession(name: Key, force: bool) returns (deleted: bool)
      modifies this`blobs
      ensures deleted <==> name in old(blobs) && (force || IsClosed(old(blobs[name].state)))
      ensures blobs == if deleted then old(blobs) - {name} else old(blobs)
    {
      var content := Download(name);
      deleted := content.Some? && (force || IsClosed(content.value.state));
      if deleted { Delete(name); }
    }
  }

  /**
   The guard: whether it is armed, the session as it last stored it, and the variables of the state update
   under way, each unset until the update gets there.
   */
  class CompletionGuard {
    const client: BlobContainer
    const key: Key
    const commit: bool
    var isArmed: bool
    var session: Option<Blob>

    var updating: bool
    var phase: Phase
    var blobMeta: Option<nat>
    var blobContent: Option<Blob>
    var checkedAt: Option<Time>
    var updatedTime: Option<Time>
    var failure: Option<Outcome>

    /** Variables are set in the order of the update; an armed guard has stored a session. */
    predicate Valid()
      reads this
    {
      && (checkedAt.Some? ==> blobMeta.Some? && blobContent.Some?)
      && (updatedTime.Some? ==> checkedAt.Some?)
      && (updating ==> failure.None?)
      && (isArmed ==> session.Some?)
    }

    /** The position in the protocol that the fields stand for. */
    ghost function View(): Guard
      reads this
      requires Valid()
    {
      Guard(key, commit, true,
            if failure.Some? then Ended(failure.value)
            else if !updating then
              if phase.Enter? then Body else Ended(if phase.failed then RolledBack else Completed)
            else if updatedTime.Some? then
              Sent(phase, blobMeta.value, blobContent.value, checkedAt.value, updatedTime.value)
            else if checkedAt.Some? then Checked(phase, blobMeta.value, blobContent.value, checkedAt.value)
            else Reading(phase, blobMeta, blobContent))
    }

    constructor (client: BlobContainer, key: Key, commit: bool)
      ensures Valid() && this.client == client && !isArmed && session.None?
      ensures View() == Guard(key, commit, true, Reading(Enter, None, None))
    {
      this.client, this.key, this.commit := client, key, commit;
      isArmed, session := false, None;
      updating, phase := true, Enter;
      blobMeta, blobContent, checkedAt, updatedTime, failure := None, None, None, None, None;
    }

    method Fail(why: Outcome)
      requires Valid()
      modifies this`updating, this`failure
      ensures Valid() && View() == old(View()).(pc := Ended(why))
    {
      updating, failure := false, Some(why);
    }

    method ReadMetadata()
      requires Valid() && View().pc.Reading?
      modifies this`blobMeta, this`updating, this`failure
      ensures Valid() && View() == AfterReadMeta(old(View()), client.blobs)
    {
      var etag := client.DownloadMetadata(key);
      if etag.None? { Fail(NotFound); } else { blobMeta := etag; }
    }

    method ReadContent()
      requires Valid() && View().pc.Reading?
      modifies this`blobContent, this`updating, this`failure
      ensures Valid() && View() == AfterReadContent(old(View()), client.blobs)
    {
      var content := client.Download(key);
      if content.None? { Fail(NotFound); } else { blobContent := content; }
    }

    /** The check goes on to the upload exactly when it is forced or the matrix allows the move from the state seen. */
    method CheckState(now: Time)
      requires Valid() && View().pc.Reading? && blobMeta.Some? && blobContent.Some?
      modifies this`checkedAt, this`updating, this`failure
      ensures Valid() && View() == AfterCheck(old(View()), now)
      ensures updating <==>
              Forced(phase)
              || MatrixAllows(blobContent.value.state, Target(phase, commit), now - blobContent.value.updated)
    {
      var seen := blobContent.value;
      var verdict := CheckUpdate(seen.state, Target(phase, commit), Forced(phase), now - seen.updated);
      if verdict.Allowed? { checkedAt := Some(now); } else { Fail(Refused(verdict)); }
    }

    /** A move allowed when it was checked is still allowed for the later time that will be stored with it. */
    method StampTime(now: Time)
      requires Valid() && View().pc.Checked?
      modifies this`updatedTime
      ensures Valid() && View() == AfterStamp(old(View()), now)
      ensures var seen, state := blobContent.value, Target(phase, commit);
        checkedAt.value <= now && MatrixAllows(seen.state, state, checkedAt.value - seen.updated) ==>
        MatrixAllows(seen.state, state, updatedTime.value - seen.updated)
    {
      updatedTime := Some(now);
    }

    /** The conditional upload; when accepted, the session the guard keeps is the one stored. */
    method UploadState()
      requires Valid() && View().pc.Sent?
      modifies this`session, this`updating, this`failure, client
      ensures Valid() && View() == AfterLand(old(View()), old(client.blobs))
      ensures client.blobs == BlobsAfterLand(old(View()), old(client.blobs), old(client.nextEtag))
      ensures failure.None? <==> UploadMatches(old(View()), old(client.blobs))
      ensures failure.None? ==> key in client.blobs && session == Some(client.blobs[key])
      ensures failure.Some? ==> session == old(session)
    {
      var etag := client.Upload(key, Target(phase, commit), updatedTime.value, blobContent.value.terms, blobMeta);
      if etag.None? {
        Fail(EtagUnmatched);
      } else {
        session := Some(Blob(etag.value, Target(phase, commit), updatedTime.value, blobContent.value.terms));
        updating := false;
      }
    }

    /** Both reads when nobody else touches the session: what is held is what is stored, or the session is not found. */
    method GetSession()
      requires Valid() && View().pc == Reading(phase, None, None)
      modifies this`blobMeta, this`blobContent, this`updating, this`failure
      ensures Valid() && checkedAt == old(checkedAt)
      ensures key in client.blobs ==>
        updating && blobMeta == Some(client.blobs[key].etag) && blobContent == Some(client.blobs[key])
        && View().pc == Reading(phase, blobMeta, blobContent)
      ensures key !in client.blobs ==> !updating && failure == Some(NotFound)
    {
      ReadMetadata();
      if updating { ReadContent(); }
    }

    /** Time stamp and upload: accepted exactly when the etag held is the stored one. */
    method StoreSession(now: Time)
      requires Valid() && View().pc.Checked?
      modifies this`session, this`updating, this`failure, this`updatedTime, client
      ensures Valid() && !updating
      ensures failure.None? <==> key in old(client.blobs) && old(client.blobs[key].etag) == blobMeta.value
      ensures failure.None? ==>
        && session == Some(Blob(old(client.nextEtag), Target(phase, commit), now, blobContent.value.terms))
        && client.blobs == old(client.blobs)[key := session.value]
      ensures failure.Some? ==>
        failure == Some(EtagUnmatched) && client.blobs == old(client.blobs) && session == old(session)
    {
      StampTime(now);
      UploadState();
    }

    /** A whole state update when nobody else touches the session: it lands exactly when the check allows it. */
    method UpdateState(target: Phase, now: Time)
      requires Valid()
      modifies this`session, this`updating, this`phase, this`blobMeta, this`blobContent
      modifies this`checkedAt, this`updatedTime, this`failure, client
      ensures Valid() && !updating && phase == target
      ensures key !in old(client.blobs) ==>
        failure == Some(NotFound) && client.blobs == old(client.blobs) && session == old(session)
      ensures key in old(client.blobs) ==>
        var b, state := old(client.blobs[key]), Target(target, commit);
        if Forced(target) || MatrixAllows(b.state, state, now - b.updated) then
          && failure.None? && session == Some(Blob(old(client.nextEtag), state, now, b.terms))
          && client.blobs == old(client.blobs)[key := session.value]
        else
          && failure == Some(Refused(CheckUpdate(b.state, state, false, now - b.updated)))
          && client.blobs == old(client.blobs) && session == old(session)
    {
      updating, phase := true, target;
      blobMeta, blobContent, checkedAt, updatedTime, failure := None, None, None, None, None;
      GetSession();
      if updating {
        CheckState(now);
        if updating { StoreSession(now); }
      }
    }

    /** Entering the guarded block. */
    method EnterGuard(now: Time)
      requires Valid() && !isArmed
      modifies this, client
      ensures Valid()
      ensures isArmed <==>
              key in old(client.blobs)
              && MatrixAllows(old(client.blobs[key].state), PendingState(commit), now - old(client.blobs[key].updated))
      ensures isArmed ==>
        && View().pc.Body?
        && session == Some(Blob(old(client.nextEtag), PendingState(commit), now, old(client.blobs[key].terms)))
        && client.blobs == old(client.blobs)[key := session.value]
      ensures !isArmed ==> client.blobs == old(client.blobs)
    {
      UpdateState(Enter, now);
      isArmed := failure.None?;
    }

    /**
     Leaving it.  A guard that is not armed does nothing.  After an exception the session is reopened whatever
     is stored; after success it is closed exactly when it is still stored in the pending state of this guard.
     Otherwise nothing is written and the guard stays armed.
     */
    method ExitGuard(failed: bool, now: Time)
      requires Valid()
      modifies this, client
      ensures Valid()
      ensures isArmed <==>
              old(isArmed)
              && !(key in old(client.blobs) && (failed || old(client.blobs[key].state) == PendingState(commit)))
      ensures old(isArmed) && !isArmed ==>
        && session == Some(Blob(old(client.nextEtag), if failed then Open else ClosedState(commit), now,
                                old(client.blobs[key].terms)))
        && client.blobs == old(client.blobs)[key := session.value]
      ensures old(isArmed) == isArmed ==> client.blobs == old(client.blobs) && session == old(session)
    {
      if !isArmed { return; }
      UpdateState(Leave(failed), now);
      isArmed := failure.Some?;
    }
  }
}
