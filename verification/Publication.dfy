/** The v4 terminal publication protocol: any number of binders interleave below
    one private root, each may fail or crash between any two steps, and writes
    reach a file piecewise. */
module Publication {
  import opened Sequences

  type Name(==, !new)
  type Bytes(==, !new) = seq<int>
  type Binder = nat
  type Inode = nat

  /** The digest and the marker text that binds a name to a digest. */
  datatype Env = Env(sha: Bytes -> Bytes, marker: (Name, Bytes) -> Bytes)

  /** The three outputs that belong to one manifest name. */
  datatype Role = Manifest | Intent | Complete

  datatype Leaf = Leaf(name: Name, role: Role)

  /** Program counter of one invocation, in the order of the source. */
  datatype Pc =
    | Waiting
    | Checking(done: nat)
    | Replaying
    | CreatingManifest(doc: Bytes)
    | WritingManifest(doc: Bytes)
    | VerifyingManifest(doc: Bytes)
    | CreatingIntent(doc: Bytes)
    | WritingIntent(doc: Bytes)
    | Linking(doc: Bytes)
    | Confirming(doc: Bytes)
    | Succeeded
    | Failed
    | Crashed

  datatype Invocation = Invocation(name: Name, pc: Pc)

  datatype File = File(data: Bytes, creator: Binder)

  datatype State = State(
    dir: map<Leaf, Inode>,
    files: map<Inode, File>,
    lock: Option<Binder>,
    binders: map<Binder, Invocation>)

  // ----- steps --------------------------------------------------------------

  predicate Critical(pc: Pc) {
    !pc.Waiting? && !pc.Succeeded? && !pc.Failed? && !pc.Crashed?
  }

  /** The order in which the preflight inspects the three names. */
  function CheckedRole(k: nat): Role {
    if k == 0 then Manifest else if k == 1 then Complete else Intent
  }

  datatype Step =
    | Start(b: Binder, name: Name)
    | TryLock(b: Binder)
    | CheckNext(b: Binder)
    | Replay(b: Binder, doc: Bytes)
    | Create(b: Binder, inode: Inode)
    | Write(b: Binder, count: nat)
    | FinishWrite(b: Binder)
    | Verify(b: Binder)
    | Link(b: Binder)
    | Confirm(b: Binder)
    | Fail(b: Binder)
    | Crash(b: Binder)

  function Move(s: State, b: Binder, pc: Pc): State
    requires b in s.binders
  {
    s.(binders := s.binders[b := s.binders[b].(pc := pc)])
  }

  /** Leaves the critical section; every way out releases the lock. */
  function Leave(s: State, b: Binder, pc: Pc): State
    requires b in s.binders
  {
    Move(s, b, pc).(lock := None)
  }

  /** Creates a name exclusively with an empty file behind it. */
  function Put(s: State, leaf: Leaf, inode: Inode, b: Binder): State {
    s.(dir := s.dir[leaf := inode], files := s.files[inode := File([], b)])
  }

  predicate Exists(s: State, leaf: Leaf) {
    leaf in s.dir && s.dir[leaf] in s.files
  }

  function FileAt(s: State, leaf: Leaf): File
    requires Exists(s, leaf)
  {
    s.files[s.dir[leaf]]
  }

  /** A short write of the next `count` bytes of `text`. */
  function Append(s: State, leaf: Leaf, text: Bytes, count: nat): State
    requires Exists(s, leaf)
  {
    var f := FileAt(s, leaf);
    var end := if |f.data| + count <= |text| then |f.data| + count else |text|;
    s.(files := s.files[s.dir[leaf] := f.(data := text[..end])])
  }

  /** What the invocation is writing, and where. */
  function Target(pc: Pc): Role { if pc.WritingManifest? then Manifest else Intent }

  function Text(env: Env, inv: Invocation): Bytes
    requires inv.pc.WritingManifest? || inv.pc.WritingIntent?
  {
    if inv.pc.WritingManifest? then inv.pc.doc else env.marker(inv.name, env.sha(inv.pc.doc))
  }

  /** The pair that the final verification demands. */
  predicate Completed(env: Env, s: State, n: Name) {
    && Exists(s, Leaf(n, Manifest)) && Exists(s, Leaf(n, Intent)) && Exists(s, Leaf(n, Complete))
    && s.dir[Leaf(n, Intent)] == s.dir[Leaf(n, Complete)]
    && FileAt(s, Leaf(n, Complete)).data == env.marker(n, env.sha(FileAt(s, Leaf(n, Manifest)).data))
  }

  /** The working steps of a binder inside the critical section. */
  function Work(env: Env, s: State, step: Step): Option<State>
    requires step.b in s.binders
  {
    var b, i := step.b, s.binders[step.b];
    var n, pc := i.name, i.pc;
    match step
    case CheckNext(_) =>
      if !pc.Checking? then None
      else if Leaf(n, CheckedRole(pc.done)) in s.dir then Some(Leave(s, b, Failed))
      else if pc.done < 2 then Some(Move(s, b, Checking(pc.done + 1)))
      else Some(Move(s, b, Replaying))
    case Replay(_, doc) => if pc.Replaying? then Some(Move(s, b, CreatingManifest(doc))) else None
    case Create(_, inode) =>
      if inode in s.files || !(pc.CreatingManifest? || pc.CreatingIntent?) then None
      else
        var leaf := Leaf(n, if pc.CreatingManifest? then Manifest else Intent);
        if leaf in s.dir then Some(Leave(s, b, Failed))
        else Some(Move(Put(s, leaf, inode, b), b,
                       if pc.CreatingManifest? then WritingManifest(pc.doc) else WritingIntent(pc.doc)))
    case Write(_, count) =>
      if !(pc.WritingManifest? || pc.WritingIntent?) || !Exists(s, Leaf(n, Target(pc))) then None
      else Some(Append(s, Leaf(n, Target(pc)), Text(env, i), count))
    case FinishWrite(_) =>
      if !(pc.WritingManifest? || pc.WritingIntent?) || !Exists(s, Leaf(n, Target(pc))) then None
      else if FileAt(s, Leaf(n, Target(pc))).data != Text(env, i) then None
      else Some(Move(s, b, if pc.WritingManifest? then VerifyingManifest(pc.doc) else Linking(pc.doc)))
    case Verify(_) =>
      if !pc.VerifyingManifest? then None
      else if Exists(s, Leaf(n, Manifest)) && FileAt(s, Leaf(n, Manifest)).data == pc.doc
      then Some(Move(s, b, CreatingIntent(pc.doc)))
      else Some(Leave(s, b, Failed))
    case Link(_) =>
      if !pc.Linking? then None
      else if !Exists(s, Leaf(n, Intent)) || Leaf(n, Complete) in s.dir then Some(Leave(s, b, Failed))
      else Some(Move(s.(dir := s.dir[Leaf(n, Complete) := s.dir[Leaf(n, Intent)]]), b, Confirming(pc.doc)))
    case Confirm(_) =>
      if !pc.Confirming? then None
      else Some(Leave(s, b, if Completed(env, s, n) then Succeeded else Failed))
    case _ => None
  }

  /** One enabled step of the whole system, or nothing when it cannot happen. */
  function Apply(env: Env, s: State, step: Step): Option<State> {
    if step.Start? then
      if step.b in s.binders then None
      else Some(s.(binders := s.binders[step.b := Invocation(step.name, Waiting)]))
    else if step.b !in s.binders then None
    else
      var b, pc := step.b, s.binders[step.b].pc;
      if step.TryLock? then
        if !pc.Waiting? then None
        else if s.lock.Some? then Some(Move(s, b, Failed))
        else Some(Move(s, b, Checking(0)).(lock := Some(b)))
      else if step.Crash? && pc.Waiting? then Some(Move(s, b, Crashed))
      else if !Critical(pc) then None
      else if step.Fail? then Some(Leave(s, b, Failed))
      else if step.Crash? then Some(Leave(s, b, Crashed))
      else Work(env, s, step)
  }

  function Run(env: Env, s: State, steps: seq<Step>): Option<State> {
    if steps == [] then Some(s)
    else
      var before := Run(env, s, DropLast(steps));
      if before.None? then None else Apply(env, before.value, Last(steps))
  }

  /** A root without any outputs, before any invocation. */
  function Root(others: map<Inode, File>): State {
    State(map[], others, None, map[])
  }

  // ----- the invariant ------------------------------------------------------

  predicate LockHeld(s: State) {
    && (s.lock.Some? ==> s.lock.value in s.binders && Critical(s.binders[s.lock.value].pc))
    && forall b :: b in s.binders && Critical(s.binders[b].pc) ==> s.lock == Some(b)
  }

  predicate MarkerPair(one: Leaf, two: Leaf) {
    one.name == two.name && one.role != Manifest && two.role != Manifest
  }

  predicate InodesOk(s: State) {
    && (forall l :: l in s.dir ==> s.dir[l] in s.files)
    && (forall l, m :: l in s.dir && m in s.dir && s.dir[l] == s.dir[m] ==> l == m || MarkerPair(l, m))
  }

  predicate Absent(s: State, n: Name, role: Role) { Leaf(n, role) !in s.dir }

  predicate Holds(s: State, n: Name, role: Role, data: Bytes, b: Binder) {
    Exists(s, Leaf(n, role)) && FileAt(s, Leaf(n, role)) == File(data, b)
  }

  predicate HoldsPart(s: State, n: Name, role: Role, text: Bytes, b: Binder) {
    && Exists(s, Leaf(n, role)) && FileAt(s, Leaf(n, role)).creator == b
    && FileAt(s, Leaf(n, role)).data <= text
  }

  /** What a binder inside the critical section knows about its three names. */
  predicate Stage(env: Env, s: State, b: Binder)
    requires b in s.binders
  {
    var n, pc := s.binders[b].name, s.binders[b].pc;
    match pc
    case Checking(k) => k <= 2 && forall j :: 0 <= j < k ==> Absent(s, n, CheckedRole(j))
    case Replaying => Absent(s, n, Manifest) && Absent(s, n, Intent) && Absent(s, n, Complete)
    case CreatingManifest(_) => Absent(s, n, Manifest) && Absent(s, n, Intent) && Absent(s, n, Complete)
    case WritingManifest(doc) => HoldsPart(s, n, Manifest, doc, b) && Absent(s, n, Intent) && Absent(s, n, Complete)
    case VerifyingManifest(doc) => Holds(s, n, Manifest, doc, b) && Absent(s, n, Intent) && Absent(s, n, Complete)
    case CreatingIntent(doc) => Holds(s, n, Manifest, doc, b) && Absent(s, n, Intent) && Absent(s, n, Complete)
    case WritingIntent(doc) =>
      && Holds(s, n, Manifest, doc, b) && HoldsPart(s, n, Intent, env.marker(n, env.sha(doc)), b)
      && Absent(s, n, Complete)
    case Linking(doc) =>
      && Holds(s, n, Manifest, doc, b) && Holds(s, n, Intent, env.marker(n, env.sha(doc)), b)
      && Absent(s, n, Complete)
    case Confirming(doc) =>
      && Holds(s, n, Manifest, doc, b) && Holds(s, n, Intent, env.marker(n, env.sha(doc)), b)
      && Holds(s, n, Complete, env.marker(n, env.sha(doc)), b)
    case _ => true
  }

  /** A visible completion marker is a finished pair that binds the visible
      manifest, and one invocation made all three. */
  predicate Published(env: Env, s: State, n: Name) {
    Leaf(n, Complete) in s.dir ==>
      && Completed(env, s, n)
      && FileAt(s, Leaf(n, Manifest)).creator == FileAt(s, Leaf(n, Complete)).creator
  }

  /** A successful invocation is the one that made its marker. */
  predicate Won(s: State, b: Binder)
    requires b in s.binders
  {
    s.binders[b].pc.Succeeded? ==>
      Exists(s, Leaf(s.binders[b].name, Complete)) && FileAt(s, Leaf(s.binders[b].name, Complete)).creator == b
  }

  ghost predicate Inv(env: Env, s: State) {
    && LockHeld(s) && InodesOk(s)
    && (forall b :: b in s.binders ==> Stage(env, s, b) && Won(s, b))
    && (forall n :: Published(env, s, n))
  }

  lemma {:induction false} RootInv(env: Env, others: map<Inode, File>)
    ensures Inv(env, Root(others))
  {
  }

  // ----- every step keeps it ------------------------------------------------

  /** Steps that touch no file: what remains to show is about the moved binder. */
  lemma {:induction false} QuietMove(env: Env, s: State, t: State, b: Binder, pc: Pc)
    requires Inv(env, s) && b in s.binders
    requires t.dir == s.dir && t.files == s.files && t.binders == s.binders[b := s.binders[b].(pc := pc)]
    requires LockHeld(t) && Stage(env, t, b) && Won(t, b)
    ensures Inv(env, t)
  {
    forall x | x in t.binders ensures Stage(env, t, x) && Won(t, x) {
      assert Stage(env, s, x) && Won(s, x);
    }
    forall n ensures Published(env, t, n) { assert Published(env, s, n); }
  }

  lemma {:induction false} StartKeeps(env: Env, s: State, b: Binder, n: Name)
    requires Inv(env, s) && b !in s.binders
    ensures Inv(env, s.(binders := s.binders[b := Invocation(n, Waiting)]))
  {
    var t := s.(binders := s.binders[b := Invocation(n, Waiting)]);
    forall x | x in t.binders ensures Stage(env, t, x) && Won(t, x) {
      if x != b { assert Stage(env, s, x) && Won(s, x); }
    }
    forall m ensures Published(env, t, m) { assert Published(env, s, m); }
  }

  lemma {:induction false} TryLockKeeps(env: Env, s: State, b: Binder)
    requires Inv(env, s) && b in s.binders && s.binders[b].pc.Waiting?
    ensures Inv(env, Apply(env, s, TryLock(b)).value)
  {
    var t := Apply(env, s, TryLock(b)).value;
    QuietMove(env, s, t, b, t.binders[b].pc);
  }

  lemma {:induction false} LeaveKeeps(env: Env, s: State, b: Binder, pc: Pc)
    requires Inv(env, s) && b in s.binders && Critical(s.binders[b].pc) && !Critical(pc)
    requires pc.Succeeded? ==>
               && Exists(s, Leaf(s.binders[b].name, Complete))
               && FileAt(s, Leaf(s.binders[b].name, Complete)).creator == b
    ensures Inv(env, Leave(s, b, pc))
  {
    var t := Leave(s, b, pc);
    QuietMove(env, s, t, b, pc);
  }

  lemma {:induction false} AdvanceKeeps(env: Env, s: State, b: Binder, pc: Pc)
    requires Inv(env, s) && b in s.binders && Critical(s.binders[b].pc) && Critical(pc)
    requires Stage(env, Move(s, b, pc), b)
    ensures Inv(env, Move(s, b, pc))
  {
    QuietMove(env, s, Move(s, b, pc), b, pc);
  }

  /** Steps that change only names and files of the holder's own manifest name. */
  predicate OwnChange(s: State, t: State, n: Name) {
    && (forall l :: l in s.dir ==> l in t.dir && t.dir[l] == s.dir[l])
    && (forall l :: l in t.dir && l.name != n ==> l in s.dir)
    && (forall i :: i in s.files ==> i in t.files && t.files[i].creator == s.files[i].creator)
    && (forall l :: l in s.dir && l.name != n && s.dir[l] in s.files ==> t.files[s.dir[l]] == s.files[s.dir[l]])
  }

  lemma {:induction false} OwnChangeKeeps(env: Env, s: State, t: State, b: Binder)
    requires Inv(env, s) && b in s.binders && Critical(s.binders[b].pc)
    requires t.lock == s.lock && b in t.binders && t.binders == s.binders[b := s.binders[b].(pc := t.binders[b].pc)]
    requires Critical(t.binders[b].pc) && OwnChange(s, t, s.binders[b].name)
    requires InodesOk(t) && Stage(env, t, b) && Published(env, t, s.binders[b].name)
    ensures Inv(env, t)
  {
    var own := s.binders[b].name;
    forall x | x in t.binders ensures Stage(env, t, x) && Won(t, x) {
      if x != b { assert Stage(env, s, x) && Won(s, x) && !Critical(s.binders[x].pc); }
    }
    forall n ensures Published(env, t, n) {
      if n != own && Leaf(n, Complete) in t.dir { OtherStaysPublished(env, s, t, own, n); }
    }
  }

  lemma {:induction false} OtherStaysPublished(env: Env, s: State, t: State, own: Name, n: Name)
    requires InodesOk(s) && Published(env, s, n) && n != own && OwnChange(s, t, own) && Leaf(n, Complete) in t.dir
    ensures Published(env, t, n)
  {
  }

  lemma {:induction false} PutIsOwn(s: State, leaf: Leaf, inode: Inode, b: Binder)
    requires InodesOk(s) && leaf !in s.dir && inode !in s.files
    ensures InodesOk(Put(s, leaf, inode, b)) && OwnChange(s, Put(s, leaf, inode, b), leaf.name)
  {
  }

  lemma {:induction false} CreateKeeps(env: Env, s: State, b: Binder, inode: Inode)
    requires Inv(env, s) && b in s.binders && inode !in s.files
    requires s.binders[b].pc.CreatingManifest? || s.binders[b].pc.CreatingIntent?
    ensures Work(env, s, Create(b, inode)).Some? && Inv(env, Work(env, s, Create(b, inode)).value)
  {
    var n, pc := s.binders[b].name, s.binders[b].pc;
    assert Stage(env, s, b);
    var leaf := Leaf(n, if pc.CreatingManifest? then Manifest else Intent);
    var t := Work(env, s, Create(b, inode)).value;
    PutIsOwn(s, leaf, inode, b);
    assert t == Move(Put(s, leaf, inode, b), b, t.binders[b].pc);
    OwnChangeKeeps(env, s, t, b);
  }

  /** A short write keeps every other name's file. */
  lemma {:induction false} AppendChangesOwn(s: State, leaf: Leaf, text: Bytes, count: nat)
    requires InodesOk(s) && Exists(s, leaf)
    ensures OwnChange(s, Append(s, leaf, text, count), leaf.name)
  {
  }

  lemma {:induction false} WriteStage(env: Env, s: State, b: Binder, count: nat)
    requires InodesOk(s) && b in s.binders && Stage(env, s, b)
    requires s.binders[b].pc.WritingManifest? || s.binders[b].pc.WritingIntent?
    ensures var leaf := Leaf(s.binders[b].name, Target(s.binders[b].pc));
            && Exists(s, leaf)
            && Stage(env, Append(s, leaf, Text(env, s.binders[b]), count), b)
  {
  }

  lemma {:induction false} WriteKeeps(env: Env, s: State, b: Binder, count: nat)
    requires Inv(env, s) && b in s.binders
    requires s.binders[b].pc.WritingManifest? || s.binders[b].pc.WritingIntent?
    ensures Work(env, s, Write(b, count)).Some? && Inv(env, Work(env, s, Write(b, count)).value)
  {
    assert Stage(env, s, b);
    var leaf := Leaf(s.binders[b].name, Target(s.binders[b].pc));
    WriteStage(env, s, b, count);
    var t := Append(s, leaf, Text(env, s.binders[b]), count);
    AppendChangesOwn(s, leaf, Text(env, s.binders[b]), count);
    assert t.binders == s.binders[b := s.binders[b].(pc := t.binders[b].pc)];
    OwnChangeKeeps(env, s, t, b);
  }

  lemma {:induction false} LinkKeeps(env: Env, s: State, b: Binder)
    requires Inv(env, s) && b in s.binders && s.binders[b].pc.Linking?
    ensures Inv(env, Work(env, s, Link(b)).value)
  {
    assert Stage(env, s, b);
    var t := Work(env, s, Link(b)).value;
    assert InodesOk(t);
    OwnChangeKeeps(env, s, t, b);
  }

  lemma {:induction false} CheckKeeps(env: Env, s: State, b: Binder)
    requires Inv(env, s) && b in s.binders && s.binders[b].pc.Checking?
    ensures Inv(env, Work(env, s, CheckNext(b)).value)
  {
    assert Stage(env, s, b);
    var n, k := s.binders[b].name, s.binders[b].pc.done;
    if Leaf(n, CheckedRole(k)) in s.dir {
      LeaveKeeps(env, s, b, Failed);
    } else if k < 2 {
      AdvanceKeeps(env, s, b, Checking(k + 1));
    } else {
      assert Absent(s, n, CheckedRole(0)) && Absent(s, n, CheckedRole(1));
      AdvanceKeeps(env, s, b, Replaying);
    }
  }

  lemma {:induction false} FinishKeeps(env: Env, s: State, b: Binder)
    requires Inv(env, s) && b in s.binders && Work(env, s, FinishWrite(b)).Some?
    ensures Inv(env, Work(env, s, FinishWrite(b)).value)
  {
    var pc := s.binders[b].pc;
    assert Stage(env, s, b);
    AdvanceKeeps(env, s, b, if pc.WritingManifest? then VerifyingManifest(pc.doc) else Linking(pc.doc));
  }

  lemma {:induction false} VerifyKeeps(env: Env, s: State, b: Binder)
    requires Inv(env, s) && b in s.binders && s.binders[b].pc.VerifyingManifest?
    ensures Inv(env, Work(env, s, Verify(b)).value)
  {
    assert Stage(env, s, b);
    AdvanceKeeps(env, s, b, CreatingIntent(s.binders[b].pc.doc));
  }

  lemma {:induction false} ConfirmKeeps(env: Env, s: State, b: Binder)
    requires Inv(env, s) && b in s.binders && s.binders[b].pc.Confirming?
    ensures Inv(env, Work(env, s, Confirm(b)).value)
    ensures Work(env, s, Confirm(b)).value.binders[b].pc.Succeeded?
  {
    assert Stage(env, s, b);
    assert Published(env, s, s.binders[b].name);
    LeaveKeeps(env, s, b, Succeeded);
  }

  lemma {:induction false} ReplayKeeps(env: Env, s: State, b: Binder, doc: Bytes)
    requires Inv(env, s) && b in s.binders && s.binders[b].pc.Replaying?
    ensures Inv(env, Work(env, s, Replay(b, doc)).value)
  {
    assert Stage(env, s, b);
    AdvanceKeeps(env, s, b, CreatingManifest(doc));
  }

  lemma {:induction false} WorkKeeps(env: Env, s: State, step: Step)
    requires Inv(env, s) && step.b in s.binders && Critical(s.binders[step.b].pc) && Work(env, s, step).Some?
    ensures Inv(env, Work(env, s, step).value)
  {
    var b := step.b;
    match step
    case CheckNext(_) => CheckKeeps(env, s, b);
    case Replay(_, doc) => ReplayKeeps(env, s, b, doc);
    case Create(_, inode) => CreateKeeps(env, s, b, inode);
    case Write(_, count) => WriteKeeps(env, s, b, count);
    case FinishWrite(_) => FinishKeeps(env, s, b);
    case Verify(_) => VerifyKeeps(env, s, b);
    case Link(_) => LinkKeeps(env, s, b);
    case Confirm(_) => ConfirmKeeps(env, s, b);
    case _ =>
  }

  lemma {:induction false} ApplyKeeps(env: Env, s: State, step: Step)
    requires Inv(env, s) && Apply(env, s, step).Some?
    ensures Inv(env, Apply(env, s, step).value)
  {
    var b := step.b;
    if step.Start? {
      StartKeeps(env, s, b, step.name);
    } else if step.TryLock? {
      TryLockKeeps(env, s, b);
    } else if step.Crash? && s.binders[b].pc.Waiting? {
      QuietMove(env, s, Move(s, b, Crashed), b, Crashed);
    } else if step.Fail? {
      LeaveKeeps(env, s, b, Failed);
    } else if step.Crash? {
      LeaveKeeps(env, s, b, Crashed);
    } else {
      WorkKeeps(env, s, step);
    }
  }

  lemma {:induction false} RunKeeps(env: Env, s: State, steps: seq<Step>)
    requires Inv(env, s) && Run(env, s, steps).Some?
    ensures Inv(env, Run(env, s, steps).value)
  {
    if steps != [] {
      RunKeeps(env, s, DropLast(steps));
      ApplyKeeps(env, Run(env, s, DropLast(steps)).value, Last(steps));
    }
  }

  // ----- what every run guarantees ------------------------------------------

  /** Safety of every interleaving with failures and crashes: a visible marker is a
      linked pair that binds the visible manifest, all made by one invocation. */
  lemma {:induction false} MarkersAreCompleteInEveryRun(env: Env, others: map<Inode, File>, steps: seq<Step>, n: Name)
    requires Run(env, Root(others), steps).Some?
    ensures Published(env, Run(env, Root(others), steps).value, n)
  {
    RootInv(env, others);
    RunKeeps(env, Root(others), steps);
  }

  /** At most one invocation per manifest name ever succeeds. */
  lemma {:induction false} OneWinnerPerName(env: Env, others: map<Inode, File>, steps: seq<Step>, a: Binder, b: Binder)
    requires Run(env, Root(others), steps).Some?
    requires var t := Run(env, Root(others), steps).value;
      && a in t.binders && b in t.binders && t.binders[a].name == t.binders[b].name
      && t.binders[a].pc.Succeeded? && t.binders[b].pc.Succeeded?
    ensures a == b
  {
    RootInv(env, others);
    RunKeeps(env, Root(others), steps);
    var t := Run(env, Root(others), steps).value;
    assert Won(t, a) && Won(t, b);
  }

  // ----- an existing output bars every later invocation -----------------------

  predicate AnyOutput(s: State, n: Name) {
    Leaf(n, Manifest) in s.dir || Leaf(n, Intent) in s.dir || Leaf(n, Complete) in s.dir
  }

  /** Not past the preflight, or already out without success. */
  predicate Barred(pc: Pc) { pc.Waiting? || pc.Checking? || pc.Failed? || pc.Crashed? }

  /** Invocations on `n` that were barred, or had not begun, are barred still. */
  predicate StillBarred(s: State, t: State, n: Name) {
    && AnyOutput(t, n)
    && forall b :: b in t.binders && t.binders[b].name == n ==>
         || Barred(t.binders[b].pc)
         || (b in s.binders && s.binders[b].name == n && !Barred(s.binders[b].pc))
  }

  predicate SameOutput(s: State, t: State, leaf: Leaf) {
    && (leaf in s.dir <==> leaf in t.dir)
    && (leaf in s.dir ==> t.dir[leaf] == s.dir[leaf])
    && (Exists(s, leaf) ==> Exists(t, leaf) && FileAt(t, leaf) == FileAt(s, leaf))
  }

  /** Every name of `n` leads to the same file with the same content. */
  predicate SameOutputs(s: State, t: State, n: Name) {
    forall role: Role :: SameOutput(s, t, Leaf(n, role))
  }

  /** Some output of `n` exists and nobody is in the middle of publishing `n`. */
  predicate Settled(s: State, n: Name) {
    && AnyOutput(s, n)
    && forall b :: b in s.binders && s.binders[b].name == n ==> Barred(s.binders[b].pc) || s.binders[b].pc.Succeeded?
  }

  /** Steps that change no name and no file. */
  predicate Administrative(step: Step) { step.Start? || step.TryLock? || step.Crash? || step.Fail? }

  /** No name disappears, and a step touches only the acting invocation's names. */
  lemma {:induction false} WorkChangesOwn(env: Env, s: State, step: Step)
    requires Inv(env, s) && step.b in s.binders && Critical(s.binders[step.b].pc) && Work(env, s, step).Some?
    ensures OwnChange(s, Work(env, s, step).value, s.binders[step.b].name)
  {
    var i := s.binders[step.b];
    if step.Write? {
      AppendChangesOwn(s, Leaf(i.name, Target(i.pc)), Text(env, i), step.count);
    }
  }

  /** The preflight does not pass while an output exists. */
  lemma {:induction false} WorkBars(env: Env, s: State, step: Step, n: Name)
    requires Inv(env, s) && step.b in s.binders && Critical(s.binders[step.b].pc) && Work(env, s, step).Some?
    requires AnyOutput(s, n) && s.binders[step.b].name == n && Barred(s.binders[step.b].pc)
    ensures var t := Work(env, s, step).value; t.dir == s.dir && t.files == s.files && Barred(t.binders[step.b].pc)
  {
    assert Stage(env, s, step.b);
    var k := s.binders[step.b].pc.done;
    if k == 2 {
      assert CheckedRole(0) == Manifest && CheckedRole(1) == Complete && CheckedRole(2) == Intent;
      assert Absent(s, n, CheckedRole(0)) && Absent(s, n, CheckedRole(1));
    }
  }

  lemma {:induction false} WorkMovesOne(env: Env, s: State, step: Step)
    requires step.b in s.binders && Work(env, s, step).Some?
    ensures var t := Work(env, s, step).value;
            step.b in t.binders && t.binders == s.binders[step.b := s.binders[step.b].(pc := t.binders[step.b].pc)]
  {
  }

  lemma {:induction false} StepBars(env: Env, s: State, step: Step, n: Name)
    requires Inv(env, s) && AnyOutput(s, n) && Apply(env, s, step).Some?
    ensures StillBarred(s, Apply(env, s, step).value, n)
  {
    if !Administrative(step) {
      WorkChangesOwn(env, s, step);
      WorkMovesOne(env, s, step);
      if s.binders[step.b].name == n && Barred(s.binders[step.b].pc) { WorkBars(env, s, step, n); }
    }
  }

  lemma {:induction false} OthersKeepOutputs(s: State, t: State, own: Name, n: Name)
    requires InodesOk(s) && OwnChange(s, t, own) && n != own
    ensures SameOutputs(s, t, n)
  {
  }

  lemma {:induction false} StepSettled(env: Env, s: State, step: Step, n: Name)
    requires Inv(env, s) && Settled(s, n) && Apply(env, s, step).Some?
    ensures var t := Apply(env, s, step).value; SameOutputs(s, t, n) && Settled(t, n)
  {
    StepBars(env, s, step, n);
    BarredStepHarmless(env, s, step, n);
    if !Administrative(step) { WorkMovesOne(env, s, step); }
  }

  /** Once any of the three names exists, no invocation that had not passed its
      preflight ever gets past it, however the system goes on. */
  lemma {:induction false} ExistingOutputBarsLaterRuns(env: Env, s: State, steps: seq<Step>, n: Name)
    requires Inv(env, s) && AnyOutput(s, n) && Run(env, s, steps).Some?
    ensures StillBarred(s, Run(env, s, steps).value, n)
  {
    if steps != [] {
      ExistingOutputBarsLaterRuns(env, s, DropLast(steps), n);
      RunKeeps(env, s, DropLast(steps));
      StepBars(env, Run(env, s, DropLast(steps)).value, Last(steps), n);
    }
  }

  /** Once the publisher of `n` is out, by success, failure or crash, no later run
      changes any of the three names or their contents. */
  lemma {:induction false} SettledOutputsNeverChange(env: Env, s: State, steps: seq<Step>, n: Name)
    requires Inv(env, s) && Settled(s, n) && Run(env, s, steps).Some?
    ensures var t := Run(env, s, steps).value; SameOutputs(s, t, n) && Settled(t, n)
  {
    if steps != [] {
      SettledOutputsNeverChange(env, s, DropLast(steps), n);
      RunKeeps(env, s, DropLast(steps));
      var before := Run(env, s, DropLast(steps)).value;
      StepSettled(env, before, Last(steps), n);
      SameOutputsTwice(s, before, Run(env, s, steps).value, n);
    }
  }

  // ----- one maker, in flight or not -----------------------------------------------

  /** The invocation that made an existing output. */
  predicate MadeBy(s: State, n: Name, role: Role, c: Binder) {
    Exists(s, Leaf(n, role)) ==> FileAt(s, Leaf(n, role)).creator == c
  }

  predicate AllMadeBy(s: State, n: Name, c: Binder) {
    MadeBy(s, n, Manifest, c) && MadeBy(s, n, Intent, c) && MadeBy(s, n, Complete, c)
  }

  ghost predicate OneMaker(s: State, n: Name) { exists c :: AllMadeBy(s, n, c) }

  /** The holder's own steps add only outputs of its own. */
  lemma {:induction false} OwnStepKeepsMaker(env: Env, s: State, step: Step, n: Name, c: Binder)
    requires Inv(env, s) && step.b in s.binders && Critical(s.binders[step.b].pc) && Work(env, s, step).Some?
    requires s.binders[step.b].name == n && AllMadeBy(s, n, c) && AnyOutput(s, n)
    ensures AllMadeBy(Work(env, s, step).value, n, c)
  {
    assert Stage(env, s, step.b);
    WorkChangesOwn(env, s, step);
  }

  lemma {:induction false} FirstOutputHasMaker(env: Env, s: State, step: Step, n: Name)
    requires Inv(env, s) && step.b in s.binders && Critical(s.binders[step.b].pc) && Work(env, s, step).Some?
    requires s.binders[step.b].name == n && !AnyOutput(s, n)
    ensures AllMadeBy(Work(env, s, step).value, n, step.b)
  {
    assert Stage(env, s, step.b);
  }

  lemma {:induction false} OthersKeepMaker(s: State, t: State, n: Name, c: Binder)
    requires InodesOk(s) && SameOutputs(s, t, n) && AllMadeBy(s, n, c)
    ensures AllMadeBy(t, n, c)
  {
    assert SameOutput(s, t, Leaf(n, Manifest)) && SameOutput(s, t, Leaf(n, Intent)) && SameOutput(s, t, Leaf(n, Complete));
  }

  /** Past the preflight of `n`, with an output in place, stands only its maker. */
  lemma {:induction false} PastPreflightIsMaker(env: Env, s: State, b: Binder, n: Name, c: Binder)
    requires Inv(env, s) && b in s.binders && s.binders[b].name == n && Critical(s.binders[b].pc)
    requires AnyOutput(s, n) && AllMadeBy(s, n, c)
    ensures Barred(s.binders[b].pc) || b == c
  {
    assert Stage(env, s, b);
  }

  /** Whether the next step of `b` can be past the preflight of `n`. */
  predicate BarredFrom(s: State, b: Binder, n: Name) {
    b in s.binders && s.binders[b].name == n && Critical(s.binders[b].pc) ==> Barred(s.binders[b].pc)
  }

  /** A step of anybody not past the preflight of `n` changes no output of `n`. */
  lemma {:induction false} BarredStepHarmless(env: Env, s: State, step: Step, n: Name)
    requires Inv(env, s) && AnyOutput(s, n) && BarredFrom(s, step.b, n) && Apply(env, s, step).Some?
    ensures SameOutputs(s, Apply(env, s, step).value, n)
  {
    if !Administrative(step) {
      if s.binders[step.b].name == n {
        WorkBars(env, s, step, n);
      } else {
        WorkChangesOwn(env, s, step);
        OthersKeepOutputs(s, Apply(env, s, step).value, s.binders[step.b].name, n);
      }
    }
  }

  lemma {:induction false} StepKeepsMaker(env: Env, s: State, step: Step, n: Name, c: Binder)
    requires Inv(env, s) && AnyOutput(s, n) && AllMadeBy(s, n, c) && Apply(env, s, step).Some?
    ensures AllMadeBy(Apply(env, s, step).value, n, c)
  {
    if BarredFrom(s, step.b, n) {
      BarredStepHarmless(env, s, step, n);
      OthersKeepMaker(s, Apply(env, s, step).value, n, c);
    } else if !Administrative(step) {
      OwnStepKeepsMaker(env, s, step, n, c);
    }
  }

  lemma {:induction false} FirstStepHasMaker(env: Env, s: State, step: Step, n: Name)
    requires Inv(env, s) && !AnyOutput(s, n) && Apply(env, s, step).Some?
    ensures AllMadeBy(Apply(env, s, step).value, n, step.b)
  {
    if !Administrative(step) {
      if s.binders[step.b].name == n {
        FirstOutputHasMaker(env, s, step, n);
      } else {
        WorkChangesOwn(env, s, step);
      }
    }
  }

  lemma {:induction false} RunHasOneMaker(env: Env, s: State, steps: seq<Step>, n: Name)
    requires Inv(env, s) && !AnyOutput(s, n) && Run(env, s, steps).Some?
    ensures OneMaker(Run(env, s, steps).value, n)
  {
    if steps == [] {
      assert AllMadeBy(s, n, 0);
    } else {
      RunHasOneMaker(env, s, DropLast(steps), n);
      RunKeeps(env, s, DropLast(steps));
      var before, step := Run(env, s, DropLast(steps)).value, Last(steps);
      if AnyOutput(before, n) {
        var c :| AllMadeBy(before, n, c);
        StepKeepsMaker(env, before, step, n, c);
      } else {
        FirstStepHasMaker(env, before, step, n);
      }
    }
  }

  /** In every reachable state all existing outputs of a name have one maker,
      whether its publication is in flight, finished or broken off. */
  lemma {:induction false} OutputsHaveOneMaker(env: Env, others: map<Inode, File>, steps: seq<Step>, n: Name)
    requires Run(env, Root(others), steps).Some?
    ensures OneMaker(Run(env, Root(others), steps).value, n)
  {
    RootInv(env, others);
    RunHasOneMaker(env, Root(others), steps, n);
  }

  /** From the first output on, the maker stays the maker in every continuation, and
      a continuation without steps of the maker leaves all outputs as they are. */
  lemma {:induction false} OnlyTheMakerChangesOutputs(env: Env, s: State, steps: seq<Step>, n: Name, c: Binder)
    requires Inv(env, s) && AnyOutput(s, n) && AllMadeBy(s, n, c) && Run(env, s, steps).Some?
    ensures var t := Run(env, s, steps).value;
            && AnyOutput(t, n) && AllMadeBy(t, n, c)
            && ((forall i :: 0 <= i < |steps| ==> steps[i].b != c) ==> SameOutputs(s, t, n))
  {
    if steps != [] {
      var front, step := DropLast(steps), Last(steps);
      OnlyTheMakerChangesOutputs(env, s, front, n, c);
      RunKeeps(env, s, front);
      var before := Run(env, s, front).value;
      StepKeepsMaker(env, before, step, n, c);
      StepBars(env, before, step, n);
      if forall i :: 0 <= i < |steps| ==> steps[i].b != c {
        assert forall i :: 0 <= i < |front| ==> front[i] == steps[i];
        OtherStepHarmless(env, before, step, n, c);
        SameOutputsTwice(s, before, Run(env, s, steps).value, n);
      }
    }
  }

  lemma {:induction false} OtherStepHarmless(env: Env, s: State, step: Step, n: Name, c: Binder)
    requires Inv(env, s) && AnyOutput(s, n) && AllMadeBy(s, n, c) && step.b != c && Apply(env, s, step).Some?
    ensures SameOutputs(s, Apply(env, s, step).value, n)
  {
    if !BarredFrom(s, step.b, n) { PastPreflightIsMaker(env, s, step.b, n, c); }
    BarredStepHarmless(env, s, step, n);
  }

  lemma {:induction false} SameOutputsTwice(s: State, t: State, u: State, n: Name)
    requires SameOutputs(s, t, n) && SameOutputs(t, u, n)
    ensures SameOutputs(s, u, n)
  {
    forall role: Role ensures SameOutput(s, u, Leaf(n, role)) {
      assert SameOutput(s, t, Leaf(n, role)) && SameOutput(t, u, Leaf(n, role));
    }
  }

  /** Take any reachable state with an output of `n` and any continuation, the
      publisher in flight or not. A step of an invocation that had not passed its
      preflight by then, or begins later, changes none of the three names, and the
      invocation does not get past its preflight with it. */
  lemma {:induction false} LaterInvocationsFailAndChangeNothing(
    env: Env, others: map<Inode, File>, first: seq<Step>, more: seq<Step>, step: Step, n: Name)
    requires Run(env, Root(others), first).Some? && AnyOutput(Run(env, Root(others), first).value, n)
    requires var s := Run(env, Root(others), first).value;
      && Run(env, s, more).Some? && Apply(env, Run(env, s, more).value, step).Some?
      && (step.b in s.binders ==> Barred(s.binders[step.b].pc))
    ensures var t := Run(env, Run(env, Root(others), first).value, more).value;
            var u := Apply(env, t, step).value;
            && SameOutputs(t, u, n)
            && (step.b in u.binders && u.binders[step.b].name == n ==> Barred(u.binders[step.b].pc))
  {
    RootInv(env, others);
    RunKeeps(env, Root(others), first);
    var s := Run(env, Root(others), first).value;
    RunKeeps(env, s, more);
    ExistingOutputBarsLaterRuns(env, s, more, n);
    var t := Run(env, s, more).value;
    BarredStepHarmless(env, t, step, n);
    StepBars(env, t, step, n);
  }

  // ----- leaf names ---------------------------------------------------------------

  /** The directory entry of a role, for manifest names as text. */
  function LeafText(name: string, role: Role): string {
    match role
    case Manifest => name
    case Intent => name + ".intent"
    case Complete => name + ".complete"
  }

  predicate IsManifestName(name: string) {
    5 <= |name| && name[|name| - 5..] == ".json"
  }

  lemma {:induction false} LastLetter(name: string, role: Role)
    requires IsManifestName(name)
    ensures Last(LeafText(name, role)) == match role case Manifest => 'n' case Intent => 't' case Complete => 'e'
  {
  }

  /** Leaf names of different manifests or roles never collide: a leaf is its manifest
      name and its role. */
  lemma {:induction false} LeafTextsDiffer(a: string, b: string, r: Role, q: Role)
    requires IsManifestName(a) && IsManifestName(b) && LeafText(a, r) == LeafText(b, q)
    ensures a == b && r == q
  {
    LastLetter(a, r);
    LastLetter(b, q);
    var tail := |LeafText(a, r)| - |a|;
    assert a == LeafText(a, r)[..|LeafText(a, r)| - tail] && b == LeafText(b, q)[..|LeafText(b, q)| - tail];
  }
}
