/** backend/substrapp/lock_local.py: what a caller that has to wait is promised. */
module LockProgress {
  import opened Common
  import opened LockLocal

  /* ---------- giving up ---------- */

  /** A step makes a caller give up exactly when it is its own decision to stop waiting for the lock file, or
      its time-out on the secondary lock before an expiry. */
  lemma GivesUpExactly(ttls: Ttls, s: State, a: Action, c: Caller)
    requires c in s.pcs && !s.pcs[c].GaveUp?
    ensures c in Step(ttls, s, a).pcs
    ensures Step(ttls, s, a).pcs[c].GaveUp? <==>
            (a == GiveUp(c) && s.pcs[c].Trying?) || (a == TimeOut(c) && s.pcs[c].WantExpiry?)
  {
  }

  /** The caller stops at some point of the run, at its own decision or on a time-out of its own. */
  predicate Stops(actions: seq<Action>, c: Caller) {
    GiveUp(c) in actions || TimeOut(c) in actions
  }

  /** In every interleaving, only a caller that stops waiting, by itself, ends up without the lock: no lock file
      it meets and nothing that others do makes it give up. */
  lemma {:induction false} OnlyStoppingGivesUp(ttls: Ttls, callers: set<Caller>, now: Time, actions: seq<Action>,
                                               c: Caller)
    requires c in callers
    ensures c in Execute(ttls, Init(callers, now), actions).pcs
    ensures Execute(ttls, Init(callers, now), actions).pcs[c].GaveUp? ==> Stops(actions, c)
    decreases |actions|
  {
    hide Step;
    if actions != [] {
      var before, a := actions[..|actions| - 1], actions[|actions| - 1];
      OnlyStoppingGivesUp(ttls, callers, now, before, c);
      var s := Execute(ttls, Init(callers, now), before);
      if !s.pcs[c].GaveUp? {
        GivesUpExactly(ttls, s, a, c);
      } else {
        StillThere(ttls, s, a, c);
      }
      assert forall b :: b in before ==> b in actions;
    }
  }

  lemma StillThere(ttls: Ttls, s: State, a: Action, c: Caller)
    requires c in s.pcs
    ensures c in Step(ttls, s, a).pcs
  {
  }

  /* ---------- waiting without a TTL ---------- */

  /** All the caller does is to try, again and again. */
  predicate KeepsTrying(actions: seq<Action>, c: Caller) {
    forall i :: 0 <= i < |actions| ==> actions[i].Tick? || actions[i].c != c || actions[i] == TryCreate(c)
  }

  /** The lock file is there at every try of the caller. */
  predicate AlwaysRefused(ttls: Ttls, s: State, actions: seq<Action>, c: Caller) {
    forall i :: 0 <= i < |actions| && actions[i] == TryCreate(c) ==> Execute(ttls, s, actions[..i]).path.Some?
  }

  lemma TryStep(ttls: Ttls, s: State, a: Action, c: Caller)
    requires c in s.pcs && !HasTtl(ttls, c) && (a.Tick? || a.c != c || a == TryCreate(c))
    ensures var s' := Step(ttls, s, a);
            && c in s'.pcs
            && (s.pcs[c].Trying? ==>
                  if a == TryCreate(c) && s.path.None? then
                    s'.pcs[c] == Created(|s.files|) && s'.path == Some(|s.files|)
                  else s'.pcs[c].Trying?)
            && (s.pcs[c].Created? ==> s'.pcs[c].Created?)
  {
  }

  lemma RefusedPrefix(ttls: Ttls, s: State, actions: seq<Action>, c: Caller)
    requires actions != []
    ensures var before, a := actions[..|actions| - 1], actions[|actions| - 1];
            AlwaysRefused(ttls, s, actions, c) <==>
            AlwaysRefused(ttls, s, before, c) && (a == TryCreate(c) ==> Execute(ttls, s, before).path.Some?)
  {
    var before := actions[..|actions| - 1];
    assert forall i :: 0 <= i < |before| ==> before[..i] == actions[..i];
    assert forall i :: 0 <= i < |before| ==> before[i] == actions[i];
  }

  /** Whatever the others do meanwhile, a caller without TTL that keeps trying is still trying exactly when
      every try met a lock file, and owns a new file otherwise. While it is still trying, the next try after
      the file has gone, followed by its write, puts it inside, however often it was refused. */
  lemma {:induction false} WaitsThenEnters(ttls: Ttls, s: State, actions: seq<Action>, c: Caller)
    requires c in s.pcs && s.pcs[c] == Trying && !HasTtl(ttls, c) && KeepsTrying(actions, c)
    ensures var after := Execute(ttls, s, actions);
            && c in after.pcs
            && (if AlwaysRefused(ttls, s, actions, c) then after.pcs[c] == Trying else after.pcs[c].Created?)
            && (AlwaysRefused(ttls, s, actions, c) && after.path.None? ==>
                  Execute(ttls, s, actions + [TryCreate(c), Write(c)]) == Entered(after, c))
    decreases |actions|
  {
    hide Step, HasTtl;
    if actions != [] {
      var before := actions[..|actions| - 1];
      WaitsThenEnters(ttls, s, before, c);
      RefusedPrefix(ttls, s, actions, c);
      TryStep(ttls, Execute(ttls, s, before), actions[|actions| - 1], c);
    }
    var after := Execute(ttls, s, actions);
    if AlwaysRefused(ttls, s, actions, c) && after.path.None? {
      ExecuteConcat(ttls, s, actions, [TryCreate(c), Write(c)]);
      TwoActions(ttls, after, TryCreate(c), Write(c));
      Enters(ttls, after, c);
    }
  }

  lemma TwoActions(ttls: Ttls, s: State, a: Action, b: Action)
    ensures Execute(ttls, s, [a, b]) == Step(ttls, Step(ttls, s, a), b)
  {
    hide Step;
    assert [a, b][..1] == [a] && [a][..0] == [];
    assert Execute(ttls, s, [a]) == Step(ttls, s, a);
  }

  /* ---------- from one holder to the next ---------- */

  function Tries(c: Caller, n: nat): seq<Action> {
    seq(n, _ => TryCreate(c))
  }

  function Releasing(k: Caller): seq<Action> {
    [Leave(k), TakeSecondary(k), Open(k)] + [ReadId(k), RemoveOwn(k), DropSecondary(k)]
  }

  /** Refused tries change nothing at all. */
  lemma {:induction false} RefusedTries(ttls: Ttls, s: State, c: Caller, n: nat)
    requires c in s.pcs && s.pcs[c] == Trying && !HasTtl(ttls, c) && s.path.Some?
    ensures Execute(ttls, s, Tries(c, n)) == s
    decreases n
  {
    if n > 0 {
      assert Tries(c, n)[..n - 1] == Tries(c, n - 1);
      RefusedTries(ttls, s, c, n - 1);
    }
  }

  /** The lock file is one that was created. */
  predicate PathExists(s: State) {
    s.path.Some? ==> s.path.value < |s.files|
  }

  lemma OnlyTheLastCounts(pcs: map<Caller, Pc>, c: Caller, pc: Pc, last: Pc)
    ensures pcs[c := pc][c := last] == pcs[c := last]
  {
  }

  lemma OpensToRelease(ttls: Ttls, s: State, c: Caller, i: Inode)
    requires c in s.pcs && s.pcs[c] == Inside(i) && s.secondary.None?
    ensures Step(ttls, Step(ttls, Step(ttls, s, Leave(c)), TakeSecondary(c)), Open(c))
         == s.(secondary := Some(c),
               pcs := s.pcs[c := if s.path.None? then ReleaseDone(i) else Reading(i, s.path.value)])
  {
    var last := if s.path.None? then ReleaseDone(i) else Reading(i, s.path.value);
    OnlyTheLastCounts(s.pcs, c, WantRelease(i), Opening(i));
    OnlyTheLastCounts(s.pcs, c, Opening(i), last);
  }

  lemma RemovesAndDrops(ttls: Ttls, s: State, c: Caller, i: Inode)
    requires c in s.pcs && PathExists(s)
    requires s.pcs[c] == ReleaseDone(i) || (s.path.Some? && s.pcs[c] == Reading(i, s.path.value))
    ensures Step(ttls, Step(ttls, Step(ttls, s, ReadId(c)), RemoveOwn(c)), DropSecondary(c))
         == s.(path := if s.pcs[c].Reading? && s.files[s.path.value].content == Some(c) then None else s.path,
               secondary := None, pcs := s.pcs[c := Finished(i)])
  {
    OnlyTheLastCounts(s.pcs, c, ReleaseDone(i), Finished(i));
    if s.pcs[c].Reading? {
      OnlyTheLastCounts(s.pcs, c, Read(i, s.path.value, s.files[s.path.value].content), ReleaseDone(i));
    }
  }

  /** A caller that leaves with the secondary lock free is done after its six steps: the lock file is gone exactly
      when it held the caller's own id, whoever's file is there and even when none is. */
  lemma ReleasesExactly(ttls: Ttls, s: State, c: Caller)
    requires c in s.pcs && s.pcs[c].Inside? && s.secondary.None? && PathExists(s)
    ensures Execute(ttls, s, Releasing(c))
         == s.(path := if s.path.Some? && s.files[s.path.value].content == Some(c) then None else s.path,
               pcs := s.pcs[c := Finished(s.pcs[c].file)])
  {
    hide Step;
    var i := s.pcs[c].file;
    OpensToRelease(ttls, s, c, i);
    var atFile := s.(secondary := Some(c),
                     pcs := s.pcs[c := if s.path.None? then ReleaseDone(i) else Reading(i, s.path.value)]);
    RemovesAndDrops(ttls, atFile, c, i);
    OnlyTheLastCounts(s.pcs, c, atFile.pcs[c], Finished(i));
    ThreeActions(ttls, s, Leave(c), TakeSecondary(c), Open(c));
    ThreeActions(ttls, atFile, ReadId(c), RemoveOwn(c), DropSecondary(c));
    ExecuteConcat(ttls, s, [Leave(c), TakeSecondary(c), Open(c)], [ReadId(c), RemoveOwn(c), DropSecondary(c)]);
  }

  lemma JudgesWhatIsThere(ttls: Ttls, s: State, c: Caller)
    requires c in s.pcs && s.pcs[c] == WantExpiry && s.secondary.None? && PathExists(s) && HasTtl(ttls, c)
    ensures var late := s.path.Some? && s.files[s.path.value].mtime + ttls[c].value < s.now;
            Step(ttls, Step(ttls, Step(ttls, s, TakeSecondary(c)), Stat(c)), Check(c))
            == s.(secondary := Some(c), pcs := s.pcs[c := if late then Expired(s.path.value) else ExpiryDone])
  {
    if s.path.None? {
      OnlyTheLastCounts(s.pcs, c, Stating, ExpiryDone);
    } else {
      var i, mtime := s.path.value, s.files[s.path.value].mtime;
      OnlyTheLastCounts(s.pcs, c, Stating, Stated(i, mtime));
      OnlyTheLastCounts(s.pcs, c, Stated(i, mtime), Expired(i));
      OnlyTheLastCounts(s.pcs, c, Stated(i, mtime), ExpiryDone);
    }
  }

  lemma RemovesAndTriesAgain(ttls: Ttls, s: State, c: Caller)
    requires c in s.pcs && (s.pcs[c].Expired? || s.pcs[c].ExpiryDone?)
    ensures Step(ttls, Step(ttls, s, RemoveExpired(c)), DropSecondary(c))
         == s.(path := if s.pcs[c].Expired? then None else s.path, secondary := None, pcs := s.pcs[c := Trying])
  {
    OnlyTheLastCounts(s.pcs, c, ExpiryDone, Trying);
  }

  /** A caller with a TTL that met a lock file and then holds the secondary lock is trying again after its five
      steps: the file that is there by now, if any, is gone exactly when it is older than the TTL. */
  lemma ExpiresExactly(ttls: Ttls, s: State, c: Caller)
    requires c in s.pcs && s.pcs[c] == WantExpiry && s.secondary.None? && PathExists(s) && HasTtl(ttls, c)
    ensures var expired := s.path.Some? && s.files[s.path.value].mtime + ttls[c].value < s.now;
            Execute(ttls, s, [TakeSecondary(c), Stat(c), Check(c)] + [RemoveExpired(c), DropSecondary(c)])
            == s.(path := if expired then None else s.path, pcs := s.pcs[c := Trying])
  {
    hide Step, HasTtl;
    JudgesWhatIsThere(ttls, s, c);
    var judged := Step(ttls, Step(ttls, Step(ttls, s, TakeSecondary(c)), Stat(c)), Check(c));
    RemovesAndTriesAgain(ttls, judged, c);
    OnlyTheLastCounts(s.pcs, c, judged.pcs[c], Trying);
    ThreeActions(ttls, s, TakeSecondary(c), Stat(c), Check(c));
    TwoActions(ttls, judged, RemoveExpired(c), DropSecondary(c));
    ExecuteConcat(ttls, s, [TakeSecondary(c), Stat(c), Check(c)], [RemoveExpired(c), DropSecondary(c)]);
  }

  /** A caller refused any number of times by the holder gets in as soon as the holder has released, and is then
      the only one inside of the two. */
  lemma HandedOver(ttls: Ttls, s: State, k: Caller, c: Caller, tries: nat)
    requires k in s.pcs && s.pcs[k].Inside? && s.path == Some(s.pcs[k].file) && s.secondary.None?
    requires s.pcs[k].file < |s.files| && s.files[s.pcs[k].file].content == Some(k)
    requires c in s.pcs && s.pcs[c] == Trying && !HasTtl(ttls, c)
    ensures Execute(ttls, s, Tries(c, tries) + Releasing(k) + [TryCreate(c), Write(c)])
         == Entered(s.(path := None, pcs := s.pcs[k := Finished(s.pcs[k].file)]), c)
  {
    hide Step, HasTtl, Releasing, Tries;
    var released := s.(path := None, pcs := s.pcs[k := Finished(s.pcs[k].file)]);
    RefusedTries(ttls, s, c, tries);
    ReleasesExactly(ttls, s, k);
    ExecuteConcat(ttls, s, Tries(c, tries), Releasing(k));
    ExecuteConcat(ttls, s, Tries(c, tries) + Releasing(k), [TryCreate(c), Write(c)]);
    TwoActions(ttls, released, TryCreate(c), Write(c));
    Enters(ttls, released, c);
  }

  /* ---------- the files ---------- */

  /** What a step does to file `i`: only the write of the caller that created it changes it, and puts the caller's
      id and the time of the write. */
  predicate FileMoves(s: State, a: Action, i: Inode, after: File)
    requires i < |s.files|
  {
    if a.Write? && a.c in s.pcs && s.pcs[a.c] == Created(i) then
      after == File(Some(a.c), s.now, s.files[i].createdAt, s.files[i].creator)
    else after == s.files[i]
  }

  /** Files are never lost; a new one is empty, of this instant and at the path of the lock file, and comes only
      from the try of a waiting caller that found no lock file. */
  lemma FilesChangeExactly(ttls: Ttls, s: State, a: Action)
    ensures var s', tries := Step(ttls, s, a),
                a.TryCreate? && a.c in s.pcs && s.pcs[a.c] == Trying && s.path.None?;
            && |s'.files| == |s.files| + (if tries then 1 else 0)
            && (forall i :: 0 <= i < |s.files| ==> FileMoves(s, a, i, s'.files[i]))
            && (tries ==> s'.files[|s.files|] == File(None, s.now, s.now, a.c) && s'.path == Some(|s.files|))
            && s'.now == if a.Tick? then s.now + a.delay else s.now
  {
  }
}
