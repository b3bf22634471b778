/** backend/substrapp/lock_local.py as a protocol: any number of `lock_resource` calls on one resource
    interleave their file-system steps. A file keeps its identity after its path is removed, as a file
    descriptor does. */
module LockLocal {
  import opened Common

  type Caller = nat        // the unique id of one lock_resource call
  type Inode = nat
  type Time = int

  /** `createdAt` and `creator` are what the properties speak about; the protocol reads the other two. */
  datatype File = File(content: Option<Caller>, mtime: Time, createdAt: Time, creator: Caller)

  datatype Pc =
    | Trying                                            // about to open with O_EXCL
    | Created(file: Inode)                              // opened, unique id not written yet
    | Inside(file: Inode)                               // in the guarded block
    | WantExpiry                                        // waiting for the secondary lock
    | Stating
    | Stated(found: Inode, mtime: Time)
    | Expired(found: Inode)                             // decided to remove
    | ExpiryDone
    | WantRelease(file: Inode)                          // waiting for the secondary lock
    | Opening(file: Inode)
    | Reading(file: Inode, target: Inode)
    | Read(file: Inode, target: Inode, content: Option<Caller>)
    | ReleaseDone(file: Inode)
    | Finished(file: Inode)
    | GaveUp

  datatype State = State(
    now: Time,
    files: seq<File>,
    path: Option<Inode>,             // the lock file
    secondary: Option<Caller>,       // the secondary lock file, and who created it
    pcs: map<Caller, Pc>)

  /** The `ttl` argument of each call. */
  type Ttls = map<Caller, Option<nat>>

  datatype Action =
    | Tick(delay: nat)
    | TryCreate(c: Caller)
    | Write(c: Caller)
    | Leave(c: Caller)
    | GiveUp(c: Caller)
    | TakeSecondary(c: Caller)
    | Stat(c: Caller)
    | Check(c: Caller)
    | RemoveExpired(c: Caller)
    | Open(c: Caller)
    | ReadId(c: Caller)
    | RemoveOwn(c: Caller)
    | DropSecondary(c: Caller)
    | TimeOut(c: Caller)             // on the secondary lock

  /** `if ttl:` */
  predicate HasTtl(ttls: Ttls, c: Caller) {
    c in ttls && ttls[c].Some? && ttls[c].value != 0
  }

  function Init(callers: set<Caller>, now: Time): State {
    State(now, [], None, None, map c | c in callers :: Trying)
  }

  /** One atomic step; an action whose caller is elsewhere does nothing. */
  function Step(ttls: Ttls, s: State, a: Action): State {
    if a.Tick? then s.(now := s.now + a.delay)
    else if a.c !in s.pcs then s
    else CallerStep(ttls, s, a, s.pcs[a.c])
  }

  function CallerStep(ttls: Ttls, s: State, a: Action, pc: Pc): State
    requires !a.Tick?
  {
    match a
    case TryCreate(c) =>
      if !pc.Trying? then s
      else if s.path.None? then
        s.(files := s.files + [File(None, s.now, s.now, c)], path := Some(|s.files|),
            pcs := s.pcs[c := Created(|s.files|)])
      else if HasTtl(ttls, c) then s.(pcs := s.pcs[c := WantExpiry])
      else s
    case Write(c) =>
      if !pc.Created? || pc.file >= |s.files| then s
      else
        var written := s.files[pc.file].(content := Some(c), mtime := s.now);
        s.(files := s.files[pc.file := written], pcs := s.pcs[c := Inside(pc.file)])
    case Leave(c) => if pc.Inside? then s.(pcs := s.pcs[c := WantRelease(pc.file)]) else s
    case GiveUp(c) => if pc.Trying? then s.(pcs := s.pcs[c := GaveUp]) else s
    case TakeSecondary(c) =>
      if s.secondary.Some? then s
      else if pc.WantExpiry? then s.(secondary := Some(c), pcs := s.pcs[c := Stating])
      else if pc.WantRelease? then s.(secondary := Some(c), pcs := s.pcs[c := Opening(pc.file)])
      else s
    case Stat(c) =>
      if !pc.Stating? then s
      else if s.path.None? || s.path.value >= |s.files| then s.(pcs := s.pcs[c := ExpiryDone])
      else s.(pcs := s.pcs[c := Stated(s.path.value, s.files[s.path.value].mtime)])
    case Check(c) =>
      if !pc.Stated? then s
      else if HasTtl(ttls, c) && pc.mtime + ttls[c].value < s.now then s.(pcs := s.pcs[c := Expired(pc.found)])
      else s.(pcs := s.pcs[c := ExpiryDone])
    case RemoveExpired(c) => if pc.Expired? then s.(path := None, pcs := s.pcs[c := ExpiryDone]) else s
    case Open(c) =>
      if !pc.Opening? then s
      else if s.path.None? then s.(pcs := s.pcs[c := ReleaseDone(pc.file)])
      else s.(pcs := s.pcs[c := Reading(pc.file, s.path.value)])
    case ReadId(c) =>
      if !pc.Reading? || pc.target >= |s.files| then s
      else s.(pcs := s.pcs[c := Read(pc.file, pc.target, s.files[pc.target].content)])
    case RemoveOwn(c) =>
      if !pc.Read? then s
      else s.(path := if pc.content == Some(c) then None else s.path, pcs := s.pcs[c := ReleaseDone(pc.file)])
    case DropSecondary(c) =>
      if pc.ExpiryDone? then s.(secondary := None, pcs := s.pcs[c := Trying])
      else if pc.ReleaseDone? then s.(secondary := None, pcs := s.pcs[c := Finished(pc.file)])
      else s
    case TimeOut(c) =>
      // the `finally` removes the secondary lock file, whoever created it
      if pc.WantExpiry? then s.(secondary := None, pcs := s.pcs[c := GaveUp])
      else if pc.WantRelease? then s.(secondary := None, pcs := s.pcs[c := Finished(pc.file)])
      else s
  }

  function Execute(ttls: Ttls, s: State, actions: seq<Action>): State {
    if actions == [] then s
    else Step(ttls, Execute(ttls, s, actions[..|actions| - 1]), actions[|actions| - 1])
  }

  /* ---------- the invariant ---------- */

  /** The caller has created a lock file, which is `pc.file`. */
  predicate Owns(pc: Pc) {
    pc.Created? || pc.Inside? || pc.WantRelease? || pc.Opening? || pc.Reading? || pc.Read? || pc.ReleaseDone?
        || pc.Finished?
  }

  /** It has not removed it yet, nor found that another process did. */
  predicate Holds(pc: Pc) {
    pc.Created? || pc.Inside? || pc.WantRelease? || pc.Opening? || pc.Reading? || pc.Read?
  }

  predicate InSecondary(pc: Pc) {
    pc.Stating? || pc.Stated? || pc.Expired? || pc.ExpiryDone? || pc.Opening? || pc.Reading? || pc.Read?
        || pc.ReleaseDone?
  }

  /** A time that every expiry waits for, `None` when no call has a TTL. */
  predicate Bound(ttls: Ttls, limit: Option<nat>) {
    forall c :: c in ttls && HasTtl(ttls, c) ==> limit.Some? && limit.value <= ttls[c].value
  }

  predicate Outlived(f: File, now: Time, limit: Option<nat>) {
    limit.Some? && f.createdAt + limit.value < now
  }

  predicate FileSound(f: File, now: Time) {
    f.createdAt <= f.mtime <= now && (f.content.Some? ==> f.content == Some(f.creator))
  }

  predicate CallerSound(s: State, c: Caller, pc: Pc, ttls: Ttls, limit: Option<nat>) {
    && (Owns(pc) ==>
          && pc.file < |s.files| && s.files[pc.file].creator == c
          && (!pc.Created? ==> s.files[pc.file].content == Some(c)))
    && (InSecondary(pc) ==> s.secondary == Some(c))
    && (Holds(pc) ==> s.path == Some(pc.file) || Outlived(s.files[pc.file], s.now, limit))
    && (pc.ReleaseDone? || pc.Finished? ==> s.path != Some(pc.file))
    && (pc.Stated? || pc.Expired? ==> s.path == Some(pc.found) && pc.found < |s.files|)
    && (pc.Stated? ==> s.files[pc.found].createdAt <= pc.mtime)
    && (pc.Expired? ==> HasTtl(ttls, c) && s.files[pc.found].createdAt + ttls[c].value < s.now)
    && (pc.Reading? || pc.Read? ==> s.path == Some(pc.target) && pc.target < |s.files|)
    && (pc.Read? && pc.content == Some(c) ==> s.files[pc.target].creator == c)
    && (pc.Read? && pc.content != Some(c) ==> pc.target != pc.file)
  }

  /** A call creates at most one file. */
  predicate CreatorsDistinct(s: State) {
    && (forall i, j :: 0 <= i < |s.files| && 0 <= j < |s.files| && s.files[i].creator == s.files[j].creator ==> i == j)
    && (forall i :: 0 <= i < |s.files| ==> s.files[i].creator in s.pcs && Owns(s.pcs[s.files[i].creator]))
  }

  predicate Sound(s: State, ttls: Ttls, limit: Option<nat>) {
    && (s.path.Some? ==> s.path.value < |s.files|)
    && (forall i :: 0 <= i < |s.files| ==> FileSound(s.files[i], s.now))
    && CreatorsDistinct(s)
    && (forall c :: c in s.pcs ==> CallerSound(s, c, s.pcs[c], ttls, limit))
  }

  /* ---------- every step keeps it ---------- */

  lemma TickSound(ttls: Ttls, s: State, delay: nat, limit: Option<nat>)
    requires Sound(s, ttls, limit)
    ensures Sound(Step(ttls, s, Tick(delay)), ttls, limit)
  {
    var s' := Step(ttls, s, Tick(delay));
    forall k | k in s'.pcs ensures CallerSound(s', k, s'.pcs[k], ttls, limit) {
      assert CallerSound(s, k, s.pcs[k], ttls, limit);
    }
  }

  /** A step that only moves one caller, and possibly takes or drops the secondary lock for it. */
  lemma MoveSound(s: State, c: Caller, pc: Pc, secondary: Option<Caller>, ttls: Ttls, limit: Option<nat>)
    requires Sound(s, ttls, limit) && c in s.pcs
    requires Owns(s.pcs[c]) ==> Owns(pc)
    requires secondary == s.secondary || s.secondary.None? || s.secondary == Some(c)
    requires CallerSound(s.(pcs := s.pcs[c := pc], secondary := secondary), c, pc, ttls, limit)
    ensures Sound(s.(pcs := s.pcs[c := pc], secondary := secondary), ttls, limit)
  {
    var s' := s.(pcs := s.pcs[c := pc], secondary := secondary);
    forall k | k in s'.pcs ensures CallerSound(s', k, s'.pcs[k], ttls, limit) {
      assert CallerSound(s, k, s.pcs[k], ttls, limit);
    }
  }

  predicate Moves(s: State, s': State, c: Caller) {
    c in s.pcs && c in s'.pcs && s' == s.(pcs := s.pcs[c := s'.pcs[c]], secondary := s'.secondary)
  }

  lemma LeaveSound(ttls: Ttls, s: State, a: Action, limit: Option<nat>)
    requires (a.Leave? || a.GiveUp?) && a.c in s.pcs && CallerSound(s, a.c, s.pcs[a.c], ttls, limit)
    ensures var s' := Step(ttls, s, a);
            Moves(s, s', a.c) && s'.secondary == s.secondary && (Owns(s.pcs[a.c]) ==> Owns(s'.pcs[a.c]))
            && CallerSound(s', a.c, s'.pcs[a.c], ttls, limit)
  {
    assert s.pcs[a.c := s.pcs[a.c]] == s.pcs;
  }

  lemma TakeSound(ttls: Ttls, s: State, c: Caller, limit: Option<nat>)
    requires c in s.pcs && CallerSound(s, c, s.pcs[c], ttls, limit)
    ensures var s' := Step(ttls, s, TakeSecondary(c));
            Moves(s, s', c) && (s'.secondary == s.secondary || s.secondary.None?)
                && (Owns(s.pcs[c]) ==> Owns(s'.pcs[c]))
            && CallerSound(s', c, s'.pcs[c], ttls, limit)
  {
    assert s.pcs[c := s.pcs[c]] == s.pcs;
  }

  lemma DropSound(ttls: Ttls, s: State, c: Caller, limit: Option<nat>)
    requires c in s.pcs && CallerSound(s, c, s.pcs[c], ttls, limit)
    ensures var s' := Step(ttls, s, DropSecondary(c));
            Moves(s, s', c) && (s'.secondary == s.secondary || s.secondary == Some(c))
                && (Owns(s.pcs[c]) ==> Owns(s'.pcs[c]))
            && CallerSound(s', c, s'.pcs[c], ttls, limit)
  {
    assert s.pcs[c := s.pcs[c]] == s.pcs;
  }

  lemma StatSound(ttls: Ttls, s: State, c: Caller, limit: Option<nat>)
    requires c in s.pcs && CallerSound(s, c, s.pcs[c], ttls, limit)
    requires forall i :: 0 <= i < |s.files| ==> FileSound(s.files[i], s.now)
    ensures var s' := Step(ttls, s, Stat(c));
            Moves(s, s', c) && s'.secondary == s.secondary && (Owns(s.pcs[c]) ==> Owns(s'.pcs[c]))
            && CallerSound(s', c, s'.pcs[c], ttls, limit)
  {
    assert s.pcs[c := s.pcs[c]] == s.pcs;
  }

  lemma CheckSound(ttls: Ttls, s: State, c: Caller, limit: Option<nat>)
    requires c in s.pcs && CallerSound(s, c, s.pcs[c], ttls, limit)
    ensures var s' := Step(ttls, s, Check(c));
            Moves(s, s', c) && s'.secondary == s.secondary && (Owns(s.pcs[c]) ==> Owns(s'.pcs[c]))
            && CallerSound(s', c, s'.pcs[c], ttls, limit)
  {
    assert s.pcs[c := s.pcs[c]] == s.pcs;
  }

  lemma OpenSound(ttls: Ttls, s: State, c: Caller, limit: Option<nat>)
    requires c in s.pcs && CallerSound(s, c, s.pcs[c], ttls, limit) && (s.path.Some? ==> s.path.value < |s.files|)
    ensures var s' := Step(ttls, s, Open(c));
            Moves(s, s', c) && s'.secondary == s.secondary && (Owns(s.pcs[c]) ==> Owns(s'.pcs[c]))
            && CallerSound(s', c, s'.pcs[c], ttls, limit)
  {
    assert s.pcs[c := s.pcs[c]] == s.pcs;
  }

  lemma ReadIdSound(ttls: Ttls, s: State, c: Caller, limit: Option<nat>)
    requires c in s.pcs && CallerSound(s, c, s.pcs[c], ttls, limit)
    requires forall i :: 0 <= i < |s.files| ==> FileSound(s.files[i], s.now)
    ensures var s' := Step(ttls, s, ReadId(c));
            Moves(s, s', c) && s'.secondary == s.secondary && (Owns(s.pcs[c]) ==> Owns(s'.pcs[c]))
            && CallerSound(s', c, s'.pcs[c], ttls, limit)
  {
  }

  lemma MovingStepSound(ttls: Ttls, s: State, a: Action, limit: Option<nat>)
    requires Sound(s, ttls, limit)
    requires a.Leave? || a.GiveUp? || a.TakeSecondary? || a.DropSecondary? || a.Stat? || a.Check? || a.Open?
        || a.ReadId?
    ensures Sound(Step(ttls, s, a), ttls, limit)
  {
    hide CallerStep, CallerSound, FileSound, CreatorsDistinct;
    if a.c in s.pcs {
      match a {
        case Leave(_) => LeaveSound(ttls, s, a, limit);
        case GiveUp(_) => LeaveSound(ttls, s, a, limit);
        case TakeSecondary(c) => TakeSound(ttls, s, c, limit);
        case DropSecondary(c) => DropSound(ttls, s, c, limit);
        case Stat(c) => StatSound(ttls, s, c, limit);
        case Check(c) => CheckSound(ttls, s, c, limit);
        case Open(c) => OpenSound(ttls, s, c, limit);
        case ReadId(c) => ReadIdSound(ttls, s, c, limit);
      }
      var s' := Step(ttls, s, a);
      MoveSound(s, a.c, s'.pcs[a.c], s'.secondary, ttls, limit);
    }
  }

  lemma NewFileSound(s: State, c: Caller, k: Caller, ttls: Ttls, limit: Option<nat>)
    requires Sound(s, ttls, limit) && c in s.pcs && s.pcs[c].Trying? && s.path.None? && k in s.pcs
    ensures var s' := s.(files := s.files + [File(None, s.now, s.now, c)], path := Some(|s.files|),
                          pcs := s.pcs[c := Created(|s.files|)]);
            CallerSound(s', k, s'.pcs[k], ttls, limit)
  {
  }

  lemma CreateSound(ttls: Ttls, s: State, c: Caller, limit: Option<nat>)
    requires Sound(s, ttls, limit)
    ensures Sound(Step(ttls, s, TryCreate(c)), ttls, limit)
  {
    hide CallerSound, Outlived;
    if c in s.pcs && s.pcs[c].Trying? {
      if s.path.None? {
        forall k | k in s.pcs
          ensures var s' := Step(ttls, s, TryCreate(c)); CallerSound(s', k, s'.pcs[k], ttls, limit)
        {
          NewFileSound(s, c, k, ttls, limit);
        }
      } else if HasTtl(ttls, c) {
        WaitSound(s, c, ttls, limit);
      }
    }
  }

  lemma WaitSound(s: State, c: Caller, ttls: Ttls, limit: Option<nat>)
    requires Sound(s, ttls, limit) && c in s.pcs && s.pcs[c].Trying?
    ensures Sound(s.(pcs := s.pcs[c := WantExpiry]), ttls, limit)
  {
    hide Outlived;
    MoveSound(s, c, WantExpiry, s.secondary, ttls, limit);
  }

  lemma WrittenSound(s: State, c: Caller, k: Caller, ttls: Ttls, limit: Option<nat>)
    requires Sound(s, ttls, limit) && c in s.pcs && s.pcs[c].Created? && s.pcs[c].file < |s.files| && k in s.pcs
    ensures var i := s.pcs[c].file;
            var s' := s.(files := s.files[i := s.files[i].(content := Some(c), mtime := s.now)],
                          pcs := s.pcs[c := Inside(i)]);
            CallerSound(s', k, s'.pcs[k], ttls, limit)
  {
    assert CallerSound(s, c, s.pcs[c], ttls, limit);
    assert CallerSound(s, k, s.pcs[k], ttls, limit);
  }

  lemma WriteSound(ttls: Ttls, s: State, c: Caller, limit: Option<nat>)
    requires Sound(s, ttls, limit)
    ensures Sound(Step(ttls, s, Write(c)), ttls, limit)
  {
    hide Outlived, CallerSound;
    if c in s.pcs && s.pcs[c].Created? {
      WrittenFile(s, c, ttls, limit);
      forall k | k in s.pcs
        ensures var s' := Step(ttls, s, Write(c)); CallerSound(s', k, s'.pcs[k], ttls, limit)
      {
        WrittenSound(s, c, k, ttls, limit);
      }
    }
  }

  lemma WrittenFile(s: State, c: Caller, ttls: Ttls, limit: Option<nat>)
    requires Sound(s, ttls, limit) && c in s.pcs && s.pcs[c].Created?
    ensures s.pcs[c].file < |s.files| && s.files[s.pcs[c].file].creator == c
  {
  }

  lemma RemoveExpiredSound(ttls: Ttls, s: State, c: Caller, limit: Option<nat>)
    requires Sound(s, ttls, limit) && Bound(ttls, limit)
    ensures Sound(Step(ttls, s, RemoveExpired(c)), ttls, limit)
  {
    var s' := Step(ttls, s, RemoveExpired(c));
    if c in s.pcs {
      assert CallerSound(s, c, s.pcs[c], ttls, limit);
    }
    forall k | k in s'.pcs ensures CallerSound(s', k, s'.pcs[k], ttls, limit) {
      assert CallerSound(s, k, s.pcs[k], ttls, limit);
    }
  }

  lemma RemoveOwnSound(ttls: Ttls, s: State, c: Caller, limit: Option<nat>)
    requires Sound(s, ttls, limit)
    ensures Sound(Step(ttls, s, RemoveOwn(c)), ttls, limit)
  {
    var s' := Step(ttls, s, RemoveOwn(c));
    if c in s.pcs {
      assert CallerSound(s, c, s.pcs[c], ttls, limit);
    }
    forall k | k in s'.pcs ensures CallerSound(s', k, s'.pcs[k], ttls, limit) {
      assert CallerSound(s, k, s.pcs[k], ttls, limit);
    }
  }

  lemma StepSound(ttls: Ttls, s: State, a: Action, limit: Option<nat>)
    requires Sound(s, ttls, limit) && Bound(ttls, limit) && !a.TimeOut?
    ensures Sound(Step(ttls, s, a), ttls, limit)
  {
    hide Sound, Bound, Step;
    match a {
      case TryCreate(c) => CreateSound(ttls, s, c, limit);
      case Write(c) => WriteSound(ttls, s, c, limit);
      case RemoveExpired(c) => RemoveExpiredSound(ttls, s, c, limit);
      case RemoveOwn(c) => RemoveOwnSound(ttls, s, c, limit);
      case Tick(delay) => TickSound(ttls, s, delay, limit);
      case _ => MovingStepSound(ttls, s, a, limit);
    }
  }

  predicate NoTimeOut(actions: seq<Action>) {
    forall i :: 0 <= i < |actions| ==> !actions[i].TimeOut?
  }

  lemma {:induction false} ExecuteSound(ttls: Ttls, callers: set<Caller>, now: Time, actions: seq<Action>,
                                        limit: Option<nat>)
    requires NoTimeOut(actions) && Bound(ttls, limit)
    ensures Sound(Execute(ttls, Init(callers, now), actions), ttls, limit)
    decreases |actions|
  {
    if actions != [] {
      ExecuteSound(ttls, callers, now, actions[..|actions| - 1], limit);
      StepSound(ttls, Execute(ttls, Init(callers, now), actions[..|actions| - 1]), actions[|actions| - 1], limit);
    }
  }

  /* ---------- what the lock promises ---------- */

  /** In every interleaving in which no secondary acquisition times out, at most one caller is in the guarded
      block and still within every TTL of the creation of its lock file. */
  lemma MutualExclusion(ttls: Ttls, callers: set<Caller>, now: Time, actions: seq<Action>, ttl: nat, c: Caller,
                        k: Caller)
    requires NoTimeOut(actions) && Bound(ttls, Some(ttl))
    ensures var s := Execute(ttls, Init(callers, now), actions);
            c in s.pcs && s.pcs[c].Inside? && k in s.pcs && s.pcs[k].Inside? ==>
              && s.pcs[c].file < |s.files| && s.pcs[k].file < |s.files|
              && ((s.now <= s.files[s.pcs[c].file].createdAt + ttl
                   && s.now <= s.files[s.pcs[k].file].createdAt + ttl) ==> c == k)
  {
    ExecuteSound(ttls, callers, now, actions, Some(ttl));
    var s := Execute(ttls, Init(callers, now), actions);
    if c in s.pcs && k in s.pcs {
      assert CallerSound(s, c, s.pcs[c], ttls, Some(ttl));
      assert CallerSound(s, k, s.pcs[k], ttls, Some(ttl));
    }
  }

  /** Whenever the next action removes the lock file, it removes the right one: a release the file its own
      caller created, an expiry the very file whose age it read, created more than its TTL ago. */
  lemma OnlyTheRightFileIsRemoved(ttls: Ttls, callers: set<Caller>, now: Time, actions: seq<Action>, a: Action)
    requires NoTimeOut(actions) && !a.TimeOut?
    ensures var s := Execute(ttls, Init(callers, now), actions);
            s.path.Some? && Step(ttls, s, a).path != s.path ==>
              && Step(ttls, s, a).path == None && s.path.value < |s.files|
              && ((a.RemoveOwn? && s.files[s.path.value].creator == a.c)
                  || (a.RemoveExpired? && a.c in s.pcs && s.pcs[a.c] == Expired(s.path.value) && HasTtl(ttls, a.c)
                      && s.files[s.path.value].createdAt + ttls[a.c].value < s.now))
  {
    ExecuteSound(ttls, callers, now, actions, Some(0));
    var s := Execute(ttls, Init(callers, now), actions);
    if !a.Tick? && a.c in s.pcs {
      assert CallerSound(s, a.c, s.pcs[a.c], ttls, Some(0));
    }
  }

  /** No removal finds its file missing: an expiry that decided to remove still finds the file it read, and
      a release that recognised its own id finds its own file. */
  lemma RemovalsFindTheirFile(ttls: Ttls, callers: set<Caller>, now: Time, actions: seq<Action>, c: Caller)
    requires NoTimeOut(actions)
    ensures var s := Execute(ttls, Init(callers, now), actions);
            c in s.pcs ==>
              && (s.pcs[c].Expired? ==> s.path == Some(s.pcs[c].found))
              && (s.pcs[c].Read? && s.pcs[c].content == Some(c) ==> s.path == Some(s.pcs[c].file))
  {
    ExecuteSound(ttls, callers, now, actions, Some(0));
    var s := Execute(ttls, Init(callers, now), actions);
    if c in s.pcs {
      assert CallerSound(s, c, s.pcs[c], ttls, Some(0));
      if s.pcs[c].Read? && s.pcs[c].content == Some(c) {
        assert s.files[s.pcs[c].target].creator == s.files[s.pcs[c].file].creator;
      }
    }
  }

  /** A caller that has left its block has not left its lock file behind. */
  lemma NoFileLeftBehind(ttls: Ttls, callers: set<Caller>, now: Time, actions: seq<Action>, i: Inode)
    requires NoTimeOut(actions)
    ensures var s := Execute(ttls, Init(callers, now), actions);
            s.path == Some(i) ==> i < |s.files| && s.files[i].creator in s.pcs && !s.pcs[s.files[i].creator].Finished?
  {
    ExecuteSound(ttls, callers, now, actions, Some(0));
    var s := Execute(ttls, Init(callers, now), actions);
    if s.path == Some(i) {
      var c := s.files[i].creator;
      assert CallerSound(s, c, s.pcs[c], ttls, Some(0));
    }
  }

  /* ---------- what a caller alone gets ---------- */

  lemma ThreeActions(ttls: Ttls, s: State, a: Action, b: Action, c: Action)
    ensures Execute(ttls, s, [a, b, c]) == Step(ttls, Step(ttls, Step(ttls, s, a), b), c)
  {
    hide Step;
    assert [a, b, c][..2] == [a, b] && [a, b][..1] == [a] && [a][..0] == [];
    assert Execute(ttls, s, [a]) == Step(ttls, s, a);
  }

  lemma FourActions(ttls: Ttls, s: State, a: Action, b: Action, c: Action, d: Action)
    ensures Execute(ttls, s, [a, b, c, d]) == Step(ttls, Step(ttls, Step(ttls, Step(ttls, s, a), b), c), d)
  {
    hide Step;
    ThreeActions(ttls, s, a, b, c);
    assert [a, b, c, d][..3] == [a, b, c];
  }

  function Entered(s: State, c: Caller): State {
    s.(files := s.files + [File(Some(c), s.now, s.now, c)], path := Some(|s.files|),
        pcs := s.pcs[c := Inside(|s.files|)])
  }

  lemma Enters(ttls: Ttls, s: State, c: Caller)
    requires c in s.pcs && s.pcs[c] == Trying && s.path.None?
    ensures Step(ttls, Step(ttls, s, TryCreate(c)), Write(c)) == Entered(s, c)
  {
    var created := Step(ttls, s, TryCreate(c));
    assert created.files[|s.files| := File(Some(c), s.now, s.now, c)] == s.files + [File(Some(c), s.now, s.now, c)];
    assert created.pcs[c := Inside(|s.files|)] == s.pcs[c := Inside(|s.files|)];
  }

  lemma StartsRelease(ttls: Ttls, s: State, c: Caller, i: Inode)
    requires c in s.pcs && s.pcs[c] == Inside(i) && s.path == Some(i) && s.secondary.None?
    ensures Step(ttls, Step(ttls, Step(ttls, s, Leave(c)), TakeSecondary(c)), Open(c))
         == s.(secondary := Some(c), pcs := s.pcs[c := Reading(i, i)])
  {
    assert s.pcs[c := WantRelease(i)][c := Opening(i)] == s.pcs[c := Opening(i)];
    assert s.pcs[c := Opening(i)][c := Reading(i, i)] == s.pcs[c := Reading(i, i)];
  }

  lemma EndsRelease(ttls: Ttls, s: State, c: Caller, i: Inode)
    requires c in s.pcs && s.pcs[c] == Reading(i, i) && i < |s.files| && s.files[i].content == Some(c)
    ensures Step(ttls, Step(ttls, Step(ttls, s, ReadId(c)), RemoveOwn(c)), DropSecondary(c))
         == s.(path := None, secondary := None, pcs := s.pcs[c := Finished(i)])
  {
    assert s.pcs[c := Read(i, i, Some(c))][c := ReleaseDone(i)] == s.pcs[c := ReleaseDone(i)];
    assert s.pcs[c := ReleaseDone(i)][c := Finished(i)] == s.pcs[c := Finished(i)];
  }

  /** With nobody else moving, a caller creates its file and is inside, then leaves no file behind. */
  lemma AloneInAndOut(ttls: Ttls, s: State, c: Caller)
    requires c in s.pcs && s.pcs[c] == Trying && s.path.None? && s.secondary.None?
    ensures var inside := Step(ttls, Step(ttls, s, TryCreate(c)), Write(c));
            && inside == Entered(s, c)
            && Execute(ttls, inside, [Leave(c), TakeSecondary(c), Open(c)]
                 + [ReadId(c), RemoveOwn(c), DropSecondary(c)])
               == inside.(path := None, secondary := None, pcs := s.pcs[c := Finished(|s.files|)])
  {
    var inside, i := Entered(s, c), |s.files|;
    Enters(ttls, s, c);
    StartsRelease(ttls, inside, c, i);
    var reading := inside.(secondary := Some(c), pcs := inside.pcs[c := Reading(i, i)]);
    EndsRelease(ttls, reading, c, i);
    assert reading.pcs[c := Finished(i)] == s.pcs[c := Finished(i)];
    hide Step;
    ThreeActions(ttls, inside, Leave(c), TakeSecondary(c), Open(c));
    ThreeActions(ttls, reading, ReadId(c), RemoveOwn(c), DropSecondary(c));
    ExecuteConcat(ttls, inside, [Leave(c), TakeSecondary(c), Open(c)], [ReadId(c), RemoveOwn(c), DropSecondary(c)]);
  }

  lemma Judges(ttls: Ttls, s: State, c: Caller, i: Inode)
    requires c in s.pcs && s.pcs[c] == Trying && s.path == Some(i) && i < |s.files| && s.secondary.None?
        && HasTtl(ttls, c)
    ensures Step(ttls, Step(ttls, Step(ttls, Step(ttls, s, TryCreate(c)), TakeSecondary(c)), Stat(c)), Check(c))
         == s.(secondary := Some(c),
               pcs := s.pcs[c := if s.files[i].mtime + ttls[c].value < s.now then Expired(i) else ExpiryDone])
  {
    assert s.pcs[c := WantExpiry][c := Stating] == s.pcs[c := Stating];
    var stated := s.(secondary := Some(c), pcs := s.pcs[c := Stated(i, s.files[i].mtime)]);
    assert s.pcs[c := Stating][c := Stated(i, s.files[i].mtime)] == stated.pcs;
    assert Step(ttls, Step(ttls, Step(ttls, s, TryCreate(c)), TakeSecondary(c)), Stat(c)) == stated;
    assert stated.pcs[c := Expired(i)] == s.pcs[c := Expired(i)]
        && stated.pcs[c := ExpiryDone] == s.pcs[c := ExpiryDone];
  }

  lemma ActsOnJudgement(ttls: Ttls, s: State, c: Caller)
    requires c in s.pcs && s.secondary == Some(c) && s.path.Some? && HasTtl(ttls, c)
    requires s.pcs[c].Expired? || s.pcs[c].ExpiryDone?
    ensures var dropped := Step(ttls, Step(ttls, s, RemoveExpired(c)), DropSecondary(c));
            var after := Step(ttls, Step(ttls, dropped, TryCreate(c)), Write(c));
            c in after.pcs && (after.pcs[c] == Inside(|s.files|) <==> s.pcs[c].Expired?)
  {
    if s.pcs[c].Expired? {
      var free := Step(ttls, Step(ttls, s, RemoveExpired(c)), DropSecondary(c));
      assert free == s.(path := None, secondary := None, pcs := free.pcs) && free.pcs[c] == Trying;
      Enters(ttls, free, c);
    } else {
      var waiting := Step(ttls, Step(ttls, s, RemoveExpired(c)), DropSecondary(c));
      assert waiting == s.(secondary := None, pcs := waiting.pcs) && waiting.pcs[c] == Trying;
    }
  }

  /** With nobody else moving, a waiting caller gets past another one's lock file exactly when the file was
      last modified longer ago than the caller's TTL. */
  lemma ExpiredExactly(ttls: Ttls, s: State, c: Caller)
    requires c in s.pcs && s.pcs[c] == Trying && s.path.Some? && s.path.value < |s.files| && s.secondary.None?
        && HasTtl(ttls, c)
    ensures var judged := Execute(ttls, s, [TryCreate(c), TakeSecondary(c), Stat(c), Check(c)]);
            var after := Execute(ttls, judged, [RemoveExpired(c), DropSecondary(c), TryCreate(c), Write(c)]);
            && judged.secondary == Some(c) && c in after.pcs
            && (after.pcs[c] == Inside(|s.files|) <==> s.files[s.path.value].mtime + ttls[c].value < s.now)
  {
    hide Step;
    Judges(ttls, s, c, s.path.value);
    FourActions(ttls, s, TryCreate(c), TakeSecondary(c), Stat(c), Check(c));
    var judged := Execute(ttls, s, [TryCreate(c), TakeSecondary(c), Stat(c), Check(c)]);
    ActsOnJudgement(ttls, judged, c);
    FourActions(ttls, judged, RemoveExpired(c), DropSecondary(c), TryCreate(c), Write(c));
  }

  lemma {:induction false} ExecuteConcat(ttls: Ttls, s: State, a: seq<Action>, b: seq<Action>)
    ensures Execute(ttls, s, a + b) == Execute(ttls, Execute(ttls, s, a), b)
    decreases |b|
  {
    if b == [] {
      assert a + b == a;
    } else {
      ExecuteConcat(ttls, s, a, b[..|b| - 1]);
      assert (a + b)[..|a + b| - 1] == a + b[..|b| - 1];
    }
  }

  /* ---------- secondary acquisitions that time out ---------- */

  /** Without TTL nobody expires a file, and a caller that has not removed its file still finds it in place. */
  predicate UndisturbedCaller(s: State, c: Caller, pc: Pc) {
    && !pc.WantExpiry? && !pc.Stating? && !pc.Stated? && !pc.Expired? && !pc.ExpiryDone?
    && (Holds(pc) ==> s.path == Some(pc.file) && pc.file < |s.files| && s.files[pc.file].creator == c)
  }

  predicate Undisturbed(s: State) {
    forall c :: c in s.pcs ==> UndisturbedCaller(s, c, s.pcs[c])
  }

  lemma UndisturbedStep(ttls: Ttls, s: State, a: Action)
    requires Undisturbed(s) && forall j :: j in ttls ==> !HasTtl(ttls, j)
    ensures Undisturbed(Step(ttls, s, a))
  {
    var s' := Step(ttls, s, a);
    if !a.Tick? && a.c in s.pcs {
      assert UndisturbedCaller(s, a.c, s.pcs[a.c]);
    }
    forall k | k in s'.pcs ensures UndisturbedCaller(s', k, s'.pcs[k]) {
      assert UndisturbedCaller(s, k, s.pcs[k]);
    }
  }

  lemma {:induction false} UndisturbedRun(ttls: Ttls, callers: set<Caller>, now: Time, actions: seq<Action>)
    requires forall j :: j in ttls ==> !HasTtl(ttls, j)
    ensures Undisturbed(Execute(ttls, Init(callers, now), actions))
    decreases |actions|
  {
    if actions != [] {
      UndisturbedRun(ttls, callers, now, actions[..|actions| - 1]);
      UndisturbedStep(ttls, Execute(ttls, Init(callers, now), actions[..|actions| - 1]), actions[|actions| - 1]);
    }
  }

  /** Without TTL at most one caller is in the guarded block, in every interleaving, time-outs included. */
  lemma MutualExclusionWithoutTtl(ttls: Ttls, callers: set<Caller>, now: Time, actions: seq<Action>, c: Caller,
                                  k: Caller)
    requires forall j :: j in ttls ==> !HasTtl(ttls, j)
    ensures var s := Execute(ttls, Init(callers, now), actions);
            c in s.pcs && s.pcs[c].Inside? && k in s.pcs && s.pcs[k].Inside? ==> c == k
  {
    UndisturbedRun(ttls, callers, now, actions);
    var s := Execute(ttls, Init(callers, now), actions);
    if c in s.pcs && k in s.pcs {
      assert UndisturbedCaller(s, c, s.pcs[c]) && UndisturbedCaller(s, k, s.pcs[k]);
    }
  }

  /** Two callers inside that created their files this very instant are the same caller. */
  predicate FreshExclusion(s: State) {
    forall c, k :: c in s.pcs && k in s.pcs && JustEntered(s, s.pcs[c]) && JustEntered(s, s.pcs[k]) ==> c == k
  }

  predicate JustEntered(s: State, pc: Pc) {
    pc.Inside? && pc.file < |s.files| && s.files[pc.file].createdAt == s.now
  }

  /* ---------- one time-out among callers of which one has a TTL ---------- */

  /** `waiter` has the TTL. `late` outlives it, so that `waiter` rightly expires its file; `holder` then enters
      and is about to release; the release of `late` times out and removes the secondary lock of `holder`. */
  datatype Cast = Cast(holder: Caller, late: Caller, waiter: Caller, last: Caller)

  predicate Distinct(x: Cast) {
    && x.holder != x.late && x.holder != x.waiter && x.holder != x.last
    && x.late != x.waiter && x.late != x.last && x.waiter != x.last
  }

  function Pcs(x: Cast, holder: Pc, late: Pc, waiter: Pc, last: Pc): map<Caller, Pc> {
    map[x.holder := holder, x.late := late, x.waiter := waiter, x.last := last]
  }

  lemma PcsLookups(x: Cast, holder: Pc, late: Pc, waiter: Pc, last: Pc)
    requires Distinct(x)
    ensures var pcs := Pcs(x, holder, late, waiter, last);
            pcs[x.holder] == holder && pcs[x.late] == late && pcs[x.waiter] == waiter && pcs[x.last] == last
  {
  }

  lemma HolderMoves(x: Cast, holder: Pc, late: Pc, waiter: Pc, last: Pc, pc: Pc)
    requires Distinct(x)
    ensures Pcs(x, holder, late, waiter, last)[x.holder := pc] == Pcs(x, pc, late, waiter, last)
  {
  }

  lemma LateMoves(x: Cast, holder: Pc, late: Pc, waiter: Pc, last: Pc, pc: Pc)
    requires Distinct(x)
    ensures Pcs(x, holder, late, waiter, last)[x.late := pc] == Pcs(x, holder, pc, waiter, last)
  {
  }

  lemma WaiterMoves(x: Cast, holder: Pc, late: Pc, waiter: Pc, last: Pc, pc: Pc)
    requires Distinct(x)
    ensures Pcs(x, holder, late, waiter, last)[x.waiter := pc] == Pcs(x, holder, late, pc, last)
  {
  }

  lemma LastMoves(x: Cast, holder: Pc, late: Pc, waiter: Pc, last: Pc, pc: Pc)
    requires Distinct(x)
    ensures Pcs(x, holder, late, waiter, last)[x.last := pc] == Pcs(x, holder, late, waiter, pc)
  {
  }

  lemma PcsUpdates(x: Cast, holder: Pc, late: Pc, waiter: Pc, last: Pc, pc: Pc)
    requires Distinct(x)
    ensures var pcs := Pcs(x, holder, late, waiter, last);
            && pcs[x.holder] == holder && pcs[x.late] == late && pcs[x.waiter] == waiter && pcs[x.last] == last
            && pcs[x.holder := pc] == Pcs(x, pc, late, waiter, last)
            && pcs[x.late := pc] == Pcs(x, holder, pc, waiter, last)
            && pcs[x.waiter := pc] == Pcs(x, holder, late, pc, last)
            && pcs[x.last := pc] == Pcs(x, holder, late, waiter, pc)
  {
    PcsLookups(x, holder, late, waiter, last);
    HolderMoves(x, holder, late, waiter, last, pc);
    LateMoves(x, holder, late, waiter, last, pc);
    WaiterMoves(x, holder, late, waiter, last, pc);
    LastMoves(x, holder, late, waiter, last, pc);
  }

  function FileOf(c: Caller, now: Time): File {
    File(Some(c), now, now, c)
  }

  function Judging(c: Caller): seq<Action> {
    [TryCreate(c), TakeSecondary(c), Stat(c), Check(c)]
  }

  function Removing(c: Caller, next: Caller): seq<Action> {
    [RemoveExpired(c), DropSecondary(c), TryCreate(next), Write(next)]
  }

  /** The waiter finds the file expired, removes it, and `next` creates the following one. */
  lemma ExpireAndEnter(ttls: Ttls, s: State, c: Caller, next: Caller, i: Inode)
    requires c in s.pcs && s.pcs[c] == Trying && s.path == Some(i) && i < |s.files| && s.secondary.None?
    requires HasTtl(ttls, c) && s.files[i].mtime + ttls[c].value < s.now
    requires next in s.pcs && s.pcs[next] == Trying
    ensures Execute(ttls, s, Judging(c) + Removing(c, next)) == Entered(s.(path := None), next)
  {
    Judges(ttls, s, c, i);
    var judged := s.(secondary := Some(c), pcs := s.pcs[c := Expired(i)]);
    var free := s.(path := None);
    assert Step(ttls, Step(ttls, judged, RemoveExpired(c)), DropSecondary(c)) == free by {
      assert s.pcs[c := Expired(i)][c := ExpiryDone][c := Trying] == s.pcs;
    }
    Enters(ttls, free, next);
    hide Step;
    FourActions(ttls, s, TryCreate(c), TakeSecondary(c), Stat(c), Check(c));
    FourActions(ttls, judged, RemoveExpired(c), DropSecondary(c), TryCreate(next), Write(next));
    ExecuteConcat(ttls, s, Judging(c), Removing(c, next));
  }

  function Act1(x: Cast, ttl: nat): seq<Action> {
    [TryCreate(x.late), Write(x.late), Tick(ttl + 1)]
  }

  function Act2(x: Cast): seq<Action> {
    Judging(x.waiter) + Removing(x.waiter, x.holder)
  }

  function Act3(x: Cast): seq<Action> {
    [Leave(x.holder), TakeSecondary(x.holder), Open(x.holder), ReadId(x.holder)]
  }

  function Act4(x: Cast, ttl: nat): seq<Action> {
    [Leave(x.late), Tick(ttl + 1), TimeOut(x.late)]
  }

  function Act5(x: Cast): seq<Action> {
    Judging(x.waiter) + Removing(x.waiter, x.waiter)
  }

  function Act6(x: Cast): seq<Action> {
    [RemoveOwn(x.holder), TryCreate(x.last), Write(x.last)]
  }

  function After1(x: Cast, now: Time, ttl: nat): State {
    State(now + ttl + 1, [FileOf(x.late, now)], Some(0), None, Pcs(x, Trying, Inside(0), Trying, Trying))
  }

  function After2(x: Cast, now: Time, ttl: nat): State {
    After1(x, now, ttl).(files := [FileOf(x.late, now), FileOf(x.holder, now + ttl + 1)], path := Some(1),
                         pcs := Pcs(x, Inside(1), Inside(0), Trying, Trying))
  }

  function After3(x: Cast, now: Time, ttl: nat): State {
    After2(x, now, ttl).(secondary := Some(x.holder),
                         pcs := Pcs(x, Read(1, 1, Some(x.holder)), Inside(0), Trying, Trying))
  }

  function After4(x: Cast, now: Time, ttl: nat): State {
    After3(x, now, ttl).(now := now + 2 * (ttl + 1), secondary := None,
                         pcs := Pcs(x, Read(1, 1, Some(x.holder)), Finished(0), Trying, Trying))
  }

  function After5(x: Cast, now: Time, ttl: nat): State {
    After4(x, now, ttl).(files := After4(x, now, ttl).files + [FileOf(x.waiter, now + 2 * (ttl + 1))], path := Some(2),
                         pcs := Pcs(x, Read(1, 1, Some(x.holder)), Finished(0), Inside(2), Trying))
  }

  function After6(x: Cast, now: Time, ttl: nat): State {
    After5(x, now, ttl).(files := After5(x, now, ttl).files + [FileOf(x.last, now + 2 * (ttl + 1))], path := Some(3),
                         pcs := Pcs(x, ReleaseDone(1), Finished(0), Inside(2), Inside(3)))
  }

  lemma Starts(x: Cast, now: Time)
    requires Distinct(x)
    ensures Init({x.holder, x.late, x.waiter, x.last}, now)
        == State(now, [], None, None, Pcs(x, Trying, Trying, Trying, Trying))
  {
  }

  lemma Trace1(ttls: Ttls, x: Cast, now: Time, ttl: nat)
    requires Distinct(x)
    ensures Execute(ttls, Init({x.holder, x.late, x.waiter, x.last}, now), Act1(x, ttl)) == After1(x, now, ttl)
  {
    var s := Init({x.holder, x.late, x.waiter, x.last}, now);
    Starts(x, now);
    PcsUpdates(x, Trying, Trying, Trying, Trying, Inside(0));
    Enters(ttls, s, x.late);
    ThreeActions(ttls, s, TryCreate(x.late), Write(x.late), Tick(ttl + 1));
  }

  lemma Trace2(ttls: Ttls, x: Cast, now: Time, ttl: nat)
    requires Distinct(x) && HasTtl(ttls, x.waiter) && ttls[x.waiter] == Some(ttl)
    ensures Execute(ttls, After1(x, now, ttl), Act2(x)) == After2(x, now, ttl)
  {
    PcsUpdates(x, Trying, Inside(0), Trying, Trying, Inside(1));
    ExpireAndEnter(ttls, After1(x, now, ttl), x.waiter, x.holder, 0);
  }

  lemma Trace3(ttls: Ttls, x: Cast, now: Time, ttl: nat)
    requires Distinct(x)
    ensures Execute(ttls, After2(x, now, ttl), Act3(x)) == After3(x, now, ttl)
  {
    var s := After2(x, now, ttl);
    PcsUpdates(x, Inside(1), Inside(0), Trying, Trying, Reading(1, 1));
    PcsUpdates(x, Reading(1, 1), Inside(0), Trying, Trying, Read(1, 1, Some(x.holder)));
    StartsRelease(ttls, s, x.holder, 1);
    FourActions(ttls, s, Leave(x.holder), TakeSecondary(x.holder), Open(x.holder), ReadId(x.holder));
  }

  lemma Trace4(ttls: Ttls, x: Cast, now: Time, ttl: nat)
    requires Distinct(x)
    ensures Execute(ttls, After3(x, now, ttl), Act4(x, ttl)) == After4(x, now, ttl)
  {
    var s, holder := After3(x, now, ttl), Read(1, 1, Some(x.holder));
    PcsUpdates(x, holder, Inside(0), Trying, Trying, WantRelease(0));
    PcsUpdates(x, holder, WantRelease(0), Trying, Trying, Finished(0));
    ThreeActions(ttls, s, Leave(x.late), Tick(ttl + 1), TimeOut(x.late));
  }

  lemma Trace5(ttls: Ttls, x: Cast, now: Time, ttl: nat)
    requires Distinct(x) && HasTtl(ttls, x.waiter) && ttls[x.waiter] == Some(ttl)
    ensures Execute(ttls, After4(x, now, ttl), Act5(x)) == After5(x, now, ttl)
  {
    PcsUpdates(x, Read(1, 1, Some(x.holder)), Finished(0), Trying, Trying, Inside(2));
    ExpireAndEnter(ttls, After4(x, now, ttl), x.waiter, x.waiter, 1);
  }

  lemma Trace6(ttls: Ttls, x: Cast, now: Time, ttl: nat)
    requires Distinct(x)
    ensures Execute(ttls, After5(x, now, ttl), Act6(x)) == After6(x, now, ttl)
  {
    var s := After5(x, now, ttl);
    var removed := s.(path := None, pcs := Pcs(x, ReleaseDone(1), Finished(0), Inside(2), Trying));
    PcsUpdates(x, Read(1, 1, Some(x.holder)), Finished(0), Inside(2), Trying, ReleaseDone(1));
    assert Step(ttls, s, RemoveOwn(x.holder)) == removed;
    PcsUpdates(x, ReleaseDone(1), Finished(0), Inside(2), Trying, Inside(3));
    Enters(ttls, removed, x.last);
    ThreeActions(ttls, s, RemoveOwn(x.holder), TryCreate(x.last), Write(x.last));
  }

  function TimeOutTrace(x: Cast, ttl: nat): seq<Action> {
    Act1(x, ttl) + Act2(x) + Act3(x) + Act4(x, ttl) + Act5(x) + Act6(x)
  }

  /** There is one time-out in the trace. */
  lemma OnlyOneTimeOut(x: Cast, ttl: nat)
    ensures NoTimeOut(Act1(x, ttl)) && NoTimeOut(Act2(x)) && NoTimeOut(Act3(x)) && NoTimeOut(Act5(x))
        && NoTimeOut(Act6(x))
    ensures NoTimeOut(Act4(x, ttl)[..2]) && Act4(x, ttl)[2..] == [TimeOut(x.late)]
  {
  }

  lemma WholeTrace(ttls: Ttls, x: Cast, now: Time, ttl: nat)
    requires Distinct(x) && HasTtl(ttls, x.waiter) && ttls[x.waiter] == Some(ttl)
    ensures Execute(ttls, Init({x.holder, x.late, x.waiter, x.last}, now), TimeOutTrace(x, ttl)) == After6(x, now, ttl)
  {
    hide Execute, Init, Act1, Act2, Act3, Act4, Act5, Act6, After1, After2, After3, After4, After5, After6;
    var s0 := Init({x.holder, x.late, x.waiter, x.last}, now);
    ExecuteConcat(ttls, s0, Act1(x, ttl) + Act2(x) + Act3(x) + Act4(x, ttl) + Act5(x), Act6(x));
    ExecuteConcat(ttls, s0, Act1(x, ttl) + Act2(x) + Act3(x) + Act4(x, ttl), Act5(x));
    ExecuteConcat(ttls, s0, Act1(x, ttl) + Act2(x) + Act3(x), Act4(x, ttl));
    ExecuteConcat(ttls, s0, Act1(x, ttl) + Act2(x), Act3(x));
    ExecuteConcat(ttls, s0, Act1(x, ttl), Act2(x));
    Trace1(ttls, x, now, ttl);
    Trace2(ttls, x, now, ttl);
    Trace3(ttls, x, now, ttl);
    Trace4(ttls, x, now, ttl);
    Trace5(ttls, x, now, ttl);
    Trace6(ttls, x, now, ttl);
  }

  /** Whatever the TTL of one caller, one time-out on the secondary lock is enough: `waiter` and `last` are in
      the guarded block at the very instant they created their lock files, the release of `holder` having
      removed the file of `waiter`. */
  lemma TimeOutBreaksExclusion(ttls: Ttls, x: Cast, now: Time, ttl: nat)
    requires Distinct(x) && HasTtl(ttls, x.waiter) && ttls[x.waiter] == Some(ttl)
    ensures var s := Execute(ttls, Init({x.holder, x.late, x.waiter, x.last}, now), TimeOutTrace(x, ttl));
            && x.waiter in s.pcs && x.last in s.pcs && s.pcs[x.waiter] == Inside(2) && s.pcs[x.last] == Inside(3)
            && |s.files| == 4 && s.files[2].createdAt == s.now == s.files[3].createdAt
  {
    hide Execute, Init, TimeOutTrace;
    WholeTrace(ttls, x, now, ttl);
    PcsUpdates(x, ReleaseDone(1), Finished(0), Inside(2), Inside(3), Inside(3));
  }

  lemma NotExclusive(ttls: Ttls, j: Caller)
    requires j in ttls && HasTtl(ttls, j)
    ensures exists callers: set<Caller>, now: Time, actions: seq<Action> ::
              !FreshExclusion(Execute(ttls, Init(callers, now), actions))
  {
    hide Execute, Init, TimeOutTrace;
    var x := Cast(j + 1, j + 2, j, j + 3);
    TimeOutBreaksExclusion(ttls, x, 0, ttls[j].value);
    var s := Execute(ttls, Init({x.holder, x.late, x.waiter, x.last}, 0), TimeOutTrace(x, ttls[j].value));
    assert JustEntered(s, s.pcs[x.waiter]) && JustEntered(s, s.pcs[x.last]);
    assert !FreshExclusion(s);
  }

  /** Mutual exclusion survives time-outs on the secondary lock, in every interleaving of any callers, exactly
      when no call has a TTL. */
  lemma ExclusionSurvivesTimeOutsExactly(ttls: Ttls)
    ensures (forall callers: set<Caller>, now: Time, actions: seq<Action> ::
               FreshExclusion(Execute(ttls, Init(callers, now), actions)))
            <==> forall j :: j in ttls ==> !HasTtl(ttls, j)
  {
    hide Execute, Init, HasTtl;
    if j :| j in ttls && HasTtl(ttls, j) {
      NotExclusive(ttls, j);
    } else {
      forall callers: set<Caller>, now: Time, actions: seq<Action>
        ensures FreshExclusion(Execute(ttls, Init(callers, now), actions))
      {
        var s := Execute(ttls, Init(callers, now), actions);
        forall c, k | c in s.pcs && k in s.pcs && JustEntered(s, s.pcs[c]) && JustEntered(s, s.pcs[k]) ensures c == k {
          MutualExclusionWithoutTtl(ttls, callers, now, actions, c, k);
        }
      }
    }
  }
}
