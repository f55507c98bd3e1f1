/**
 The per-chat instance lock: kernel file locks between processes, a holder table
 between the threads of one process.

 `Acquired` and `Released` are what one process does inside its own mutex; a run
 interleaves those of any number of processes and threads, with crashes.
 */
module InstanceLock {

  type Pid = int
  type Tid = int
  type Chat = string

  /** What the lock file of a chat says; an empty or unreadable file has no data. */
  datatype LockData = LockData(pid: Pid, instance: string, heartbeat: real)

  /** The lock files: which process the kernel has granted each one to, and their contents. */
  datatype Files = Files(flock: map<Chat, Pid>, content: map<Chat, LockData>)

  datatype Manager = Manager(pid: Pid, instance: string, ttl: real, held: map<Chat, Tid>)

  /** The file belongs to another instance that is alive and has written it lately. */
  predicate OwnedElsewhere(m: Manager, f: Files, c: Chat, now: real, alive: bool) {
    && c in f.content
    && f.content[c].pid != m.pid && f.content[c].instance != m.instance
    && alive && now - f.content[c].heartbeat <= m.ttl
  }

  function Stamp(m: Manager, f: Files, c: Chat, now: real): Files {
    f.(content := f.content[c := LockData(m.pid, m.instance, now)])
  }

  predicate Granted(m: Manager, f: Files, t: Tid, c: Chat, now: real, alive: bool) {
    if c in m.held then m.held[c] == t
    else c !in f.flock && !OwnedElsewhere(m, f, c, now, alive)
  }

  function Acquired(m: Manager, f: Files, t: Tid, c: Chat, now: real, alive: bool): (Manager, Files) {
    if !Granted(m, f, t, c, now, alive) then (m, f)
    else if c in m.held then (m, Stamp(m, f, c, now))
    else (m.(held := m.held[c := t]), Stamp(m, f, c, now).(flock := f.flock[c := m.pid]))
  }

  /** Release does not count acquisitions and does not ask which thread calls it. */
  function Released(m: Manager, f: Files, c: Chat): (Manager, Files) {
    if c in m.held then (m.(held := m.held - {c}), Files(f.flock - {c}, f.content - {c})) else (m, f)
  }

  function Beat(m: Manager, f: Files, now: real): Files {
    f.(content := map c | c in f.content.Keys + m.held.Keys ::
         if c in m.held then LockData(m.pid, m.instance, now) else f.content[c])
  }

  // ------------------------------------------------- the objects of one process

  class LockFiles {
    var flock: map<Chat, Pid>
    var content: map<Chat, LockData>

    ghost function State(): Files
      reads this
    {
      Files(flock, content)
    }
  }

  function Threads(holder: map<Chat, (Pid, Tid)>): map<Chat, Tid> {
    map c | c in holder :: holder[c].1
  }

  class InstanceManager {
    const pid: Pid
    const instance: string
    const ttl: real
    const files: LockFiles
    var held: set<Chat>
    var holder: map<Chat, (Pid, Tid)>
    var fds: map<Chat, nat>
    var nextFd: nat

    ghost predicate Valid()
      reads this
    {
      held == holder.Keys == fds.Keys && forall c :: c in holder ==> holder[c].0 == pid
    }

    ghost function State(): Manager
      requires Valid()
      reads this
    {
      Manager(pid, instance, ttl, Threads(holder))
    }

    constructor (pid: Pid, instance: string, ttl: real, files: LockFiles)
      ensures Valid() && State() == Manager(pid, instance, ttl, map[]) && this.files == files
    {
      this.pid, this.instance, this.ttl, this.files := pid, instance, ttl, files;
      held, holder, fds, nextFd := {}, map[], map[], 0;
    }

    /** `alive` is the answer to whether the process named in the lock file still lives. */
    method Acquire(t: Tid, c: Chat, now: real, alive: bool) returns (ok: bool)
      requires Valid()
      modifies this, files
      ensures Valid()
      ensures ok == Granted(old(State()), old(files.State()), t, c, now, alive)
      ensures (State(), files.State()) == Acquired(old(State()), old(files.State()), t, c, now, alive)
    {
      if c in held {
        var (holderPid, holderTid) := holder[c];
        if holderPid == pid && holderTid == t {
          files.content := files.content[c := LockData(pid, instance, now)];
          return true;
        }
        return false;
      }
      if c in files.flock {
        return false;
      }
      ghost var before := files.flock;
      files.flock := files.flock[c := pid];
      if c in files.content {
        var owner := files.content[c];
        if owner.pid != pid && owner.instance != instance && alive && now - owner.heartbeat <= ttl {
          files.flock := files.flock - {c};
          assert files.flock == before;
          return false;
        }
      }
      files.content := files.content[c := LockData(pid, instance, now)];
      assert Threads(holder[c := (pid, t)]) == Threads(holder)[c := t];
      held, holder, fds, nextFd := held + {c}, holder[c := (pid, t)], fds[c := nextFd], nextFd + 1;
      ok := true;
    }

    method Release(c: Chat)
      requires Valid()
      modifies this, files
      ensures Valid()
      ensures (State(), files.State()) == Released(old(State()), old(files.State()), c)
    {
      var open := c in fds;
      assert Threads(holder - {c}) == Threads(holder) - {c};
      assert !open ==> holder - {c} == holder;
      held, holder, fds := held - {c}, holder - {c}, fds - {c};
      if open {
        files.content := files.content - {c};
        files.flock := files.flock - {c};
      }
    }

    method Heartbeat(now: real)
      requires Valid()
      modifies files
      ensures files.State() == Beat(State(), old(files.State()), now)
    {
      var todo, done := held, {};
      while todo != {}
        invariant todo + done == held && todo !! done
        invariant files.flock == old(files.flock)
        invariant files.content == map c | c in old(files.content).Keys + done ::
                                     if c in done then LockData(pid, instance, now) else old(files.content)[c]
        decreases todo
      {
        var c :| c in todo;
        files.content := files.content[c := LockData(pid, instance, now)];
        todo, done := todo - {c}, done + {c};
      }
    }
  }

  // ------------------------------------------------------------------------ runs

  datatype Event =
    | Try(p: Pid, t: Tid, c: Chat, now: real, alive: bool)
    | Leave(p: Pid, t: Tid, c: Chat)
    | Heartbeat(p: Pid, now: real)
    | Crash(p: Pid)

  /** `depth` counts, for a thread and a chat, the acquisitions it has not yet given back. */
  datatype World = World(files: Files, managers: map<Pid, Manager>, depth: map<(Pid, Tid, Chat), nat>)

  function Depth(w: World, p: Pid, t: Tid, c: Chat): nat {
    if (p, t, c) in w.depth then w.depth[(p, t, c)] else 0
  }

  predicate Inside(w: World, p: Pid, t: Tid, c: Chat) {
    Depth(w, p, t, c) > 0
  }

  predicate Enabled(w: World, ev: Event) {
    ev.p in w.managers && (ev.Leave? ==> Inside(w, ev.p, ev.t, ev.c))
  }

  function Next(w: World, ev: Event): World
    requires Enabled(w, ev)
  {
    var m := w.managers[ev.p];
    match ev
    case Try(p, t, c, now, alive) =>
      var (m', f') := Acquired(m, w.files, t, c, now, alive);
      World(f', w.managers[p := m'],
            if Granted(m, w.files, t, c, now, alive) then w.depth[(p, t, c) := Depth(w, p, t, c) + 1] else w.depth)
    case Leave(p, t, c) =>
      var (m', f') := Released(m, w.files, c);
      World(f', w.managers[p := m'], w.depth[(p, t, c) := Depth(w, p, t, c) - 1])
    case Heartbeat(p, now) => w.(files := Beat(m, w.files, now))
    case Crash(p) =>
      World(w.files.(flock := map c | c in w.files.flock && w.files.flock[c] != p :: w.files.flock[c]),
            w.managers[p := m.(held := map[])],
            map k | k in w.depth && k.0 != p :: w.depth[k])
  }

  /** The rule that keeps the lock sound: no thread acquires again before it has released. */
  predicate NotReentrant(w: World, ev: Event) {
    ev.Try? ==> !Inside(w, ev.p, ev.t, ev.c)
  }

  predicate Initial(w: World) {
    && w.files.flock == map[] && w.depth == map[]
    && forall p :: p in w.managers ==> w.managers[p].pid == p && w.managers[p].held == map[]
  }

  ghost predicate StepAt(ws: seq<World>, evs: seq<Event>, k: nat) {
    && k < |evs| && k + 1 < |ws|
    && Enabled(ws[k], evs[k]) && NotReentrant(ws[k], evs[k]) && ws[k + 1] == Next(ws[k], evs[k])
  }

  ghost predicate Run(ws: seq<World>, evs: seq<Event>) {
    |ws| == |evs| + 1 && Initial(ws[0]) && forall k: nat :: k < |evs| ==> StepAt(ws, evs, k)
  }

  /** The kernel has granted a chat's file to a process exactly if its holder table names the chat. */
  ghost predicate AgreeAt(w: World, p: Pid, c: Chat) {
    (p in w.managers && c in w.managers[p].held) <==> (c in w.files.flock && w.files.flock[c] == p)
  }

  ghost predicate Agree(w: World) {
    && (forall p :: p in w.managers ==> w.managers[p].pid == p)
    && (forall p, c :: AgreeAt(w, p, c))
  }

  /** A thread is inside, once, exactly if it is the recorded holder. */
  ghost predicate ExactAt(w: World, p: Pid, t: Tid, c: Chat) {
    Depth(w, p, t, c) == if p in w.managers && c in w.managers[p].held && w.managers[p].held[c] == t then 1 else 0
  }

  ghost predicate Exact(w: World) {
    forall p, t, c :: ExactAt(w, p, t, c)
  }

  lemma StepKeepsAgree(w: World, ev: Event)
    requires Agree(w) && Enabled(w, ev)
    ensures Agree(Next(w, ev))
  {
    var w' := Next(w, ev);
    forall p, c ensures AgreeAt(w', p, c) {
      assert AgreeAt(w, p, c);
      if ev.Try? || ev.Leave? {
        assert AgreeAt(w, ev.p, c) && AgreeAt(w, p, ev.c);
      }
    }
  }

  lemma StepKeepsExact(w: World, ev: Event, p: Pid, t: Tid, c: Chat)
    requires Exact(w) && Enabled(w, ev) && NotReentrant(w, ev)
    ensures ExactAt(Next(w, ev), p, t, c)
  {
    assert ExactAt(w, p, t, c);
    if ev.Try? || ev.Leave? {
      assert ExactAt(w, ev.p, ev.t, ev.c);
    }
  }

  lemma StepKeeps(w: World, ev: Event)
    requires Agree(w) && Exact(w) && Enabled(w, ev) && NotReentrant(w, ev)
    ensures Agree(Next(w, ev)) && Exact(Next(w, ev))
  {
    StepKeepsAgree(w, ev);
    forall p, t, c ensures ExactAt(Next(w, ev), p, t, c) { StepKeepsExact(w, ev, p, t, c); }
  }

  lemma {:induction false} RunKeeps(ws: seq<World>, evs: seq<Event>, k: nat)
    requires Run(ws, evs) && k < |ws|
    ensures Agree(ws[k]) && Exact(ws[k])
    decreases k
  {
    if k == 0 {
      assert forall p, c :: AgreeAt(ws[0], p, c);
    } else {
      RunKeeps(ws, evs, k - 1);
      assert StepAt(ws, evs, k - 1);
      StepKeeps(ws[k - 1], evs[k - 1]);
    }
  }

  /** In every run without re-entry at most one thread of one process is inside a chat. */
  lemma MutualExclusion(ws: seq<World>, evs: seq<Event>, k: nat, p: Pid, t: Tid, q: Pid, u: Tid, c: Chat)
    requires Run(ws, evs) && k < |ws|
    requires Inside(ws[k], p, t, c) && Inside(ws[k], q, u, c)
    ensures p == q && t == u
  {
    RunKeeps(ws, evs, k);
    assert ExactAt(ws[k], p, t, c) && ExactAt(ws[k], q, u, c);
    assert AgreeAt(ws[k], p, c) && AgreeAt(ws[k], q, c);
  }

  /**
   The rule is necessary: from any sound state in which a thread is inside, one
   re-entry, one release and one other thread of its process put two threads inside.
   */
  lemma ReentryBreaksExclusion(w: World, p: Pid, t: Tid, u: Tid, c: Chat, now: real, alive: bool)
    requires Agree(w) && Exact(w) && Inside(w, p, t, c) && u != t
    ensures var again, leave, other := Try(p, t, c, now, alive), Leave(p, t, c), Try(p, u, c, now, alive);
            && Enabled(w, again) && !NotReentrant(w, again)
            && Enabled(Next(w, again), leave)
            && Enabled(Next(Next(w, again), leave), other)
            && Inside(Next(Next(Next(w, again), leave), other), p, t, c)
            && Inside(Next(Next(Next(w, again), leave), other), p, u, c)
  {
    assert ExactAt(w, p, t, c) && AgreeAt(w, p, c);
  }

  /** Once the holder has left, any thread of any process can get in. */
  lemma ReleasedIsFree(w: World, p: Pid, t: Tid, q: Pid, u: Tid, c: Chat, now: real, alive: bool)
    requires Agree(w) && Exact(w) && Inside(w, p, t, c) && q in w.managers
    ensures Enabled(w, Leave(p, t, c))
    ensures var w' := Next(w, Leave(p, t, c)); Granted(w'.managers[q], w'.files, u, c, now, alive)
  {
    assert ExactAt(w, p, t, c) && AgreeAt(w, p, c) && AgreeAt(w, q, c);
  }

  // -------------------------------------------------------- what lock files decide

  /** A chat that nobody has locked is refused exactly to those who find it owned by a live and recent other. */
  lemma FreeFileDecides(m: Manager, f: Files, t: Tid, c: Chat, now: real, alive: bool)
    requires c !in m.held && c !in f.flock
    ensures !Granted(m, f, t, c, now, alive) <==>
              && c in f.content && alive && now - f.content[c].heartbeat <= m.ttl
              && f.content[c].pid != m.pid && f.content[c].instance != m.instance
  {
  }

  /** What a grant leaves: the chat locked and held by this thread, its file stamped, and all else as it was. */
  lemma GrantWrites(m: Manager, f: Files, t: Tid, c: Chat, now: real, alive: bool)
    requires Granted(m, f, t, c, now, alive) && (c in m.held ==> c in f.flock && f.flock[c] == m.pid)
    ensures var (m', f') := Acquired(m, f, t, c, now, alive);
            && c in m'.held && m'.held[c] == t && c in f'.flock && f'.flock[c] == m.pid
            && c in f'.content && f'.content[c] == LockData(m.pid, m.instance, now)
            && (forall d :: d != c ==>
                  && (d in m'.held <==> d in m.held) && (d in m.held ==> m'.held[d] == m.held[d])
                  && (d in f'.flock <==> d in f.flock) && (d in f.flock ==> f'.flock[d] == f.flock[d])
                  && (d in f'.content <==> d in f.content) && (d in f.content ==> f'.content[d] == f.content[d]))
  {
  }

  lemma RefusalWrites(m: Manager, f: Files, t: Tid, c: Chat, now: real, alive: bool)
    requires !Granted(m, f, t, c, now, alive)
    ensures Acquired(m, f, t, c, now, alive) == (m, f)
  {
  }

  /** A heartbeat stamps the files of the held chats with this process and the time, and touches no other. */
  lemma HeartbeatWrites(m: Manager, f: Files, now: real, c: Chat)
    ensures var f' := Beat(m, f, now);
            && f'.flock == f.flock
            && (c in m.held ==> c in f'.content && f'.content[c] == LockData(m.pid, m.instance, now))
            && (c !in m.held ==>
                  (c in f'.content <==> c in f.content) && (c in f.content ==> f'.content[c] == f.content[c]))
  {
  }

  /** A chat that a crashed process has held is granted to any thread of any process that finds its owner dead. */
  lemma CrashedOwnerIsFree(ws: seq<World>, evs: seq<Event>, k: nat, p: Pid, t: Tid, q: Pid, u: Tid, c: Chat, now: real)
    requires Run(ws, evs) && k < |evs| && evs[k] == Crash(p) && Inside(ws[k], p, t, c) && q in ws[k].managers
    ensures q in ws[k + 1].managers && Granted(ws[k + 1].managers[q], ws[k + 1].files, u, c, now, false)
  {
    RunKeeps(ws, evs, k);
    assert StepAt(ws, evs, k);
    assert ExactAt(ws[k], p, t, c) && AgreeAt(ws[k], p, c) && AgreeAt(ws[k], q, c);
  }

  /** While the owner named in a lock file lives and has written it lately, every other instance is refused. */
  lemma LiveOwnerKeepsOut(ws: seq<World>, evs: seq<Event>, k: nat, q: Pid, u: Tid, c: Chat, now: real)
    requires Run(ws, evs) && k < |ws| && q in ws[k].managers
    requires var m, files := ws[k].managers[q], ws[k].files;
             && c in files.content && now - files.content[c].heartbeat <= m.ttl
             && files.content[c].pid != q && files.content[c].instance != m.instance
    ensures Inside(ws[k], q, u, c) || !Granted(ws[k].managers[q], ws[k].files, u, c, now, true)
  {
    RunKeeps(ws, evs, k);
    assert ExactAt(ws[k], q, u, c);
  }

  /** Whoever is inside a chat, any thread of another process and any other thread is refused. */
  lemma HolderKeepsOut(ws: seq<World>, evs: seq<Event>, k: nat, p: Pid, t: Tid, q: Pid, u: Tid, c: Chat, now: real,
                       alive: bool)
    requires Run(ws, evs) && k < |ws| && q in ws[k].managers && Inside(ws[k], p, t, c) && (q, u) != (p, t)
    ensures !Granted(ws[k].managers[q], ws[k].files, u, c, now, alive)
  {
    RunKeeps(ws, evs, k);
    assert ExactAt(ws[k], p, t, c) && AgreeAt(ws[k], p, c) && AgreeAt(ws[k], q, c) && ExactAt(ws[k], q, u, c);
  }
}
