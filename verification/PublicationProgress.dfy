/** The publication protocol is not only safe: an invocation can always publish when
    its names are free, and what it then leaves behind is exactly determined. */
module PublicationProgress {
  import opened Sequences
  import opened Publication

  predicate Leads(env: Env, s: State, steps: seq<Step>, t: State) {
    Run(env, s, steps) == Some(t)
  }

  lemma {:induction false} OneStep(env: Env, s: State, step: Step, t: State)
    requires Apply(env, s, step) == Some(t)
    ensures Leads(env, s, [step], t)
  {
    assert Run(env, s, []) == Some(s) && DropLast([step]) == [];
  }

  lemma {:induction false} Chained(env: Env, s: State, steps: seq<Step>, t: State, more: seq<Step>, u: State)
    requires Leads(env, s, steps, t) && Leads(env, t, more, u)
    ensures Leads(env, s, steps + more, u)
  {
    RunAppend(env, s, steps, more);
  }

  lemma {:induction false} RunAppend(env: Env, s: State, first: seq<Step>, more: seq<Step>)
    requires Run(env, s, first).Some?
    ensures Run(env, s, first + more) == Run(env, Run(env, s, first).value, more)
  {
    if more == [] {
      assert first + more == first;
    } else {
      RunAppend(env, s, first, DropLast(more));
      assert DropLast(first + more) == first + DropLast(more);
    }
  }

  // ----- the steps of one invocation -------------------------------------------------

  function Preflight(b: Binder, n: Name): seq<Step> {
    [Start(b, n), TryLock(b), CheckNext(b), CheckNext(b), CheckNext(b)]
  }

  function WriteOut(b: Binder, inode: Inode, text: Bytes): seq<Step> {
    [Create(b, inode), Write(b, |text|), FinishWrite(b)]
  }

  function Plan(env: Env, b: Binder, n: Name, doc: Bytes, x: Inode, y: Inode): seq<Step> {
    Preflight(b, n) + [Replay(b, doc)] + WriteOut(b, x, doc) + [Verify(b)]
    + WriteOut(b, y, env.marker(n, env.sha(doc))) + [Link(b), Confirm(b)]
  }

  /** The state of a holder's run so far: its position and what it has added. */
  function With(s: State, dir: map<Leaf, Inode>, files: map<Inode, File>, b: Binder, n: Name, pc: Pc): State {
    State(dir, files, Some(b), s.binders[b := Invocation(n, pc)])
  }

  predicate Free(s: State, n: Name) {
    Leaf(n, Manifest) !in s.dir && Leaf(n, Intent) !in s.dir && Leaf(n, Complete) !in s.dir
  }

  lemma {:induction false} Locks(env: Env, s: State, b: Binder, n: Name)
    requires s.lock.None? && b !in s.binders
    ensures Leads(env, s, [Start(b, n), TryLock(b)], With(s, s.dir, s.files, b, n, Checking(0)))
  {
    var t := s.(binders := s.binders[b := Invocation(n, Waiting)]);
    var u := With(s, s.dir, s.files, b, n, Checking(0));
    OneStep(env, s, Start(b, n), t);
    assert t.binders[b := Invocation(n, Checking(0))] == u.binders;
    OneStep(env, t, TryLock(b), u);
    Chained(env, s, [Start(b, n)], t, [TryLock(b)], u);
    assert [Start(b, n)] + [TryLock(b)] == [Start(b, n), TryLock(b)];
  }

  lemma {:induction false} Advances(s: State, dir: map<Leaf, Inode>, files: map<Inode, File>, b: Binder, n: Name, pc: Pc, next: Pc)
    ensures Move(With(s, dir, files, b, n, pc), b, next) == With(s, dir, files, b, n, next)
  {
  }

  lemma {:induction false} Checks(env: Env, s: State, b: Binder, n: Name, k: nat)
    requires Leaf(n, CheckedRole(k)) !in s.dir && k <= 2
    ensures Leads(env, With(s, s.dir, s.files, b, n, Checking(k)), [CheckNext(b)],
                  With(s, s.dir, s.files, b, n, if k < 2 then Checking(k + 1) else Replaying))
  {
    var next := if k < 2 then Checking(k + 1) else Replaying;
    Advances(s, s.dir, s.files, b, n, Checking(k), next);
    OneStep(env, With(s, s.dir, s.files, b, n, Checking(k)), CheckNext(b), With(s, s.dir, s.files, b, n, next));
  }

  function Checked(b: Binder, n: Name, k: nat): seq<Step> {
    if k == 0 then [Start(b, n), TryLock(b)] else Checked(b, n, k - 1) + [CheckNext(b)]
  }

  /** As long as the names are absent the preflight goes on. */
  lemma {:induction false} PassesChecks(env: Env, s: State, b: Binder, n: Name, k: nat)
    requires s.lock.None? && b !in s.binders && k <= 3
    requires forall j: nat :: j < k ==> Leaf(n, CheckedRole(j)) !in s.dir
    ensures Leads(env, s, Checked(b, n, k), With(s, s.dir, s.files, b, n, if k < 3 then Checking(k) else Replaying))
  {
    if k == 0 {
      Locks(env, s, b, n);
    } else {
      PassesChecks(env, s, b, n, k - 1);
      Checks(env, s, b, n, k - 1);
      Chained(env, s, Checked(b, n, k - 1), With(s, s.dir, s.files, b, n, Checking(k - 1)),
              [CheckNext(b)], With(s, s.dir, s.files, b, n, if k < 3 then Checking(k) else Replaying));
    }
  }

  lemma {:induction false} PreflightIs(b: Binder, n: Name, k: nat)
    requires k <= 3
    ensures Checked(b, n, k) == Preflight(b, n)[..2 + k]
  {
    if k > 0 { PreflightIs(b, n, k - 1); }
  }

  lemma {:induction false} PassesPreflight(env: Env, s: State, b: Binder, n: Name)
    requires s.lock.None? && b !in s.binders && Free(s, n)
    ensures Leads(env, s, Preflight(b, n), With(s, s.dir, s.files, b, n, Replaying))
  {
    PassesChecks(env, s, b, n, 3);
    PreflightIs(b, n, 3);
    assert Preflight(b, n)[..5] == Preflight(b, n);
  }

  // ----- one output ----------------------------------------------------------------------

  function OutputRole(pc: Pc): Role { if pc.CreatingManifest? || pc.WritingManifest? then Manifest else Intent }

  predicate Creating(pc: Pc) { pc.CreatingManifest? || pc.CreatingIntent? }

  function Writing(pc: Pc): Pc
    requires Creating(pc)
  {
    if pc.CreatingManifest? then WritingManifest(pc.doc) else WritingIntent(pc.doc)
  }

  function Finished(pc: Pc): Pc
    requires Creating(pc)
  {
    if pc.CreatingManifest? then VerifyingManifest(pc.doc) else Linking(pc.doc)
  }

  /** The manifest holds the document, the intent the marker for its digest. */
  function OutputText(env: Env, n: Name, pc: Pc): Bytes
    requires Creating(pc)
  {
    if pc.CreatingManifest? then pc.doc else env.marker(n, env.sha(pc.doc))
  }

  lemma {:induction false} Creates(
      env: Env, s: State, dir: map<Leaf, Inode>, files: map<Inode, File>, b: Binder, n: Name, pc: Pc, inode: Inode)
    requires Creating(pc) && inode !in files && Leaf(n, OutputRole(pc)) !in dir
    ensures Leads(env, With(s, dir, files, b, n, pc), [Create(b, inode)],
                  With(s, dir[Leaf(n, OutputRole(pc)) := inode], files[inode := File([], b)], b, n, Writing(pc)))
  {
    var t := With(s, dir[Leaf(n, OutputRole(pc)) := inode], files[inode := File([], b)], b, n, Writing(pc));
    Advances(s, t.dir, t.files, b, n, pc, Writing(pc));
    OneStep(env, With(s, dir, files, b, n, pc), Create(b, inode), t);
  }

  lemma {:induction false} Writes(
      env: Env, s: State, dir: map<Leaf, Inode>, files: map<Inode, File>, b: Binder, n: Name, pc: Pc, inode: Inode)
    requires Creating(pc) && Leaf(n, OutputRole(pc)) in dir && dir[Leaf(n, OutputRole(pc))] == inode
    ensures Leads(env, With(s, dir, files[inode := File([], b)], b, n, Writing(pc)), [Write(b, |OutputText(env, n, pc)|)],
                  With(s, dir, files[inode := File(OutputText(env, n, pc), b)], b, n, Writing(pc)))
  {
    var text := OutputText(env, n, pc);
    var s1 := With(s, dir, files[inode := File([], b)], b, n, Writing(pc));
    var s2 := With(s, dir, files[inode := File(text, b)], b, n, Writing(pc));
    assert Text(env, s1.binders[b]) == text && Target(Writing(pc)) == OutputRole(pc);
    assert text[..|text|] == text;
    assert s1.files[inode := File(text, b)] == s2.files;
    assert Append(s1, Leaf(n, OutputRole(pc)), text, |text|) == s2;
    OneStep(env, s1, Write(b, |text|), s2);
  }

  lemma {:induction false} Finishes(
      env: Env, s: State, dir: map<Leaf, Inode>, files: map<Inode, File>, b: Binder, n: Name, pc: Pc)
    requires Creating(pc) && Leaf(n, OutputRole(pc)) in dir && dir[Leaf(n, OutputRole(pc))] in files
    requires files[dir[Leaf(n, OutputRole(pc))]].data == OutputText(env, n, pc)
    ensures Leads(env, With(s, dir, files, b, n, Writing(pc)), [FinishWrite(b)], With(s, dir, files, b, n, Finished(pc)))
  {
    var s1, s2 := With(s, dir, files, b, n, Writing(pc)), With(s, dir, files, b, n, Finished(pc));
    assert Text(env, s1.binders[b]) == OutputText(env, n, pc) && Target(Writing(pc)) == OutputRole(pc);
    Advances(s, dir, files, b, n, Writing(pc), Finished(pc));
    OneStep(env, s1, FinishWrite(b), s2);
  }

  /** Creating, writing and finishing one output. */
  lemma {:induction false} WritesOut(
      env: Env, s: State, dir: map<Leaf, Inode>, files: map<Inode, File>, b: Binder, n: Name, pc: Pc, inode: Inode)
    requires Creating(pc) && inode !in files && Leaf(n, OutputRole(pc)) !in dir
    ensures Leads(env, With(s, dir, files, b, n, pc), WriteOut(b, inode, OutputText(env, n, pc)),
                  With(s, dir[Leaf(n, OutputRole(pc)) := inode], files[inode := File(OutputText(env, n, pc), b)],
                       b, n, Finished(pc)))
  {
    var text, next := OutputText(env, n, pc), dir[Leaf(n, OutputRole(pc)) := inode];
    var s0, s1 := With(s, dir, files, b, n, pc), With(s, next, files[inode := File([], b)], b, n, Writing(pc));
    var s2 := With(s, next, files[inode := File(text, b)], b, n, Writing(pc));
    var s3 := With(s, next, files[inode := File(text, b)], b, n, Finished(pc));
    Creates(env, s, dir, files, b, n, pc, inode);
    Writes(env, s, next, files, b, n, pc, inode);
    Finishes(env, s, next, files[inode := File(text, b)], b, n, pc);
    Chained(env, s0, [Create(b, inode)], s1, [Write(b, |text|)], s2);
    Chained(env, s0, [Create(b, inode)] + [Write(b, |text|)], s2, [FinishWrite(b)], s3);
    assert [Create(b, inode)] + [Write(b, |text|)] + [FinishWrite(b)] == WriteOut(b, inode, text);
  }

  // ----- the whole publication -------------------------------------------------------------

  /** What a success leaves: three names, two files, and nothing else changed. */
  function After(env: Env, s: State, b: Binder, n: Name, doc: Bytes, x: Inode, y: Inode): State {
    State(
      s.dir[Leaf(n, Manifest) := x][Leaf(n, Intent) := y][Leaf(n, Complete) := y],
      s.files[x := File(doc, b)][y := File(env.marker(n, env.sha(doc)), b)],
      None,
      s.binders[b := Invocation(n, Succeeded)])
  }

  lemma {:induction false} LinksUp(
      env: Env, s: State, dir: map<Leaf, Inode>, files: map<Inode, File>, b: Binder, n: Name, doc: Bytes)
    requires Leaf(n, Intent) in dir && dir[Leaf(n, Intent)] in files && Leaf(n, Complete) !in dir
    ensures Leads(env, With(s, dir, files, b, n, Linking(doc)), [Link(b)],
                  With(s, dir[Leaf(n, Complete) := dir[Leaf(n, Intent)]], files, b, n, Confirming(doc)))
  {
    var next := dir[Leaf(n, Complete) := dir[Leaf(n, Intent)]];
    Advances(s, next, files, b, n, Linking(doc), Confirming(doc));
    OneStep(env, With(s, dir, files, b, n, Linking(doc)), Link(b), With(s, next, files, b, n, Confirming(doc)));
  }

  lemma {:induction false} Confirms(
      env: Env, s: State, dir: map<Leaf, Inode>, files: map<Inode, File>, b: Binder, n: Name, doc: Bytes)
    requires Completed(env, With(s, dir, files, b, n, Confirming(doc)), n)
    ensures Leads(env, With(s, dir, files, b, n, Confirming(doc)), [Confirm(b)],
                  State(dir, files, None, s.binders[b := Invocation(n, Succeeded)]))
  {
    Advances(s, dir, files, b, n, Confirming(doc), Succeeded);
    OneStep(env, With(s, dir, files, b, n, Confirming(doc)), Confirm(b),
            State(dir, files, None, s.binders[b := Invocation(n, Succeeded)]));
  }

  lemma {:induction false} PairCompletes(env: Env, s: State, b: Binder, n: Name, doc: Bytes, x: Inode, y: Inode)
    requires x != y
    ensures var t := After(env, s, b, n, doc, x, y); Completed(env, With(s, t.dir, t.files, b, n, Confirming(doc)), n)
  {
  }

  lemma {:induction false} LinksAndConfirms(env: Env, s: State, b: Binder, n: Name, doc: Bytes, x: Inode, y: Inode)
    requires Free(s, n) && x != y
    ensures var t := After(env, s, b, n, doc, x, y);
            Leads(env, With(s, s.dir[Leaf(n, Manifest) := x][Leaf(n, Intent) := y], t.files, b, n, Linking(doc)),
                  [Link(b), Confirm(b)], t)
  {
    var dir, t := s.dir[Leaf(n, Manifest) := x][Leaf(n, Intent) := y], After(env, s, b, n, doc, x, y);
    LinksUp(env, s, dir, t.files, b, n, doc);
    PairCompletes(env, s, b, n, doc, x, y);
    Confirms(env, s, t.dir, t.files, b, n, doc);
    Chained(env, With(s, dir, t.files, b, n, Linking(doc)), [Link(b)],
            With(s, t.dir, t.files, b, n, Confirming(doc)), [Confirm(b)], t);
    assert [Link(b)] + [Confirm(b)] == [Link(b), Confirm(b)];
  }

  lemma {:induction false} Replays(env: Env, s: State, b: Binder, n: Name, doc: Bytes)
    ensures Leads(env, With(s, s.dir, s.files, b, n, Replaying), [Replay(b, doc)],
                  With(s, s.dir, s.files, b, n, CreatingManifest(doc)))
  {
    Advances(s, s.dir, s.files, b, n, Replaying, CreatingManifest(doc));
    OneStep(env, With(s, s.dir, s.files, b, n, Replaying), Replay(b, doc),
            With(s, s.dir, s.files, b, n, CreatingManifest(doc)));
  }

  lemma {:induction false} Verifies(
      env: Env, s: State, dir: map<Leaf, Inode>, files: map<Inode, File>, b: Binder, n: Name, doc: Bytes)
    requires Leaf(n, Manifest) in dir && dir[Leaf(n, Manifest)] in files && files[dir[Leaf(n, Manifest)]].data == doc
    ensures Leads(env, With(s, dir, files, b, n, VerifyingManifest(doc)), [Verify(b)],
                  With(s, dir, files, b, n, CreatingIntent(doc)))
  {
    Advances(s, dir, files, b, n, VerifyingManifest(doc), CreatingIntent(doc));
    OneStep(env, With(s, dir, files, b, n, VerifyingManifest(doc)), Verify(b), With(s, dir, files, b, n, CreatingIntent(doc)));
  }

  lemma {:induction false} ManifestStands(env: Env, s: State, b: Binder, n: Name, doc: Bytes, x: Inode)
    requires s.lock.None? && b !in s.binders && Free(s, n) && x !in s.files
    ensures Leads(env, s, Preflight(b, n) + [Replay(b, doc)] + WriteOut(b, x, doc) + [Verify(b)],
                  With(s, s.dir[Leaf(n, Manifest) := x], s.files[x := File(doc, b)], b, n, CreatingIntent(doc)))
  {
    var dir, files := s.dir[Leaf(n, Manifest) := x], s.files[x := File(doc, b)];
    var replaying, creating := With(s, s.dir, s.files, b, n, Replaying), With(s, s.dir, s.files, b, n, CreatingManifest(doc));
    PassesPreflight(env, s, b, n);
    Replays(env, s, b, n, doc);
    Chained(env, s, Preflight(b, n), replaying, [Replay(b, doc)], creating);
    WritesOut(env, s, s.dir, s.files, b, n, CreatingManifest(doc), x);
    var verifying := With(s, dir, files, b, n, VerifyingManifest(doc));
    Chained(env, s, Preflight(b, n) + [Replay(b, doc)], creating, WriteOut(b, x, doc), verifying);
    Verifies(env, s, dir, files, b, n, doc);
    Chained(env, s, Preflight(b, n) + [Replay(b, doc)] + WriteOut(b, x, doc), verifying,
            [Verify(b)], With(s, dir, files, b, n, CreatingIntent(doc)));
  }

  /** From every state with a free lock and free names, an invocation's own steps lead
      to success, and leave exactly its document and the marker that binds it. */
  lemma {:induction false} InvocationCanPublish(env: Env, s: State, b: Binder, n: Name, doc: Bytes, x: Inode, y: Inode)
    requires s.lock.None? && b !in s.binders && Free(s, n) && x !in s.files && y !in s.files && x != y
    ensures Leads(env, s, Plan(env, b, n, doc, x, y), After(env, s, b, n, doc, x, y))
  {
    var front, marker := Preflight(b, n) + [Replay(b, doc)] + WriteOut(b, x, doc) + [Verify(b)], env.marker(n, env.sha(doc));
    var dir, files, t := s.dir[Leaf(n, Manifest) := x], s.files[x := File(doc, b)], After(env, s, b, n, doc, x, y);
    var creating := With(s, dir, files, b, n, CreatingIntent(doc));
    var linking := With(s, dir[Leaf(n, Intent) := y], t.files, b, n, Linking(doc));
    ManifestStands(env, s, b, n, doc, x);
    WritesOut(env, s, dir, files, b, n, CreatingIntent(doc), y);
    Chained(env, s, front, creating, WriteOut(b, y, marker), linking);
    LinksAndConfirms(env, s, b, n, doc, x, y);
    Chained(env, s, front + WriteOut(b, y, marker), linking, [Link(b), Confirm(b)], t);
  }

  // ----- in every reachable state ------------------------------------------------------

  predicate Reads(s: State, n: Name, role: Role, data: Bytes) {
    Exists(s, Leaf(n, role)) && FileAt(s, Leaf(n, role)).data == data
  }

  lemma {:induction false} AfterIsPublished(env: Env, s: State, b: Binder, n: Name, doc: Bytes, x: Inode, y: Inode)
    requires x != y
    ensures var t := After(env, s, b, n, doc, x, y);
            && Completed(env, t, n) && Reads(t, n, Manifest, doc)
            && Reads(t, n, Intent, env.marker(n, env.sha(doc))) && Reads(t, n, Complete, env.marker(n, env.sha(doc)))
  {
  }

  /** The steps of `b` alone, behind at most one step by which the holder gives up. */
  predicate OwnSteps(steps: seq<Step>, b: Binder, holder: Option<Binder>) {
    forall i :: 0 <= i < |steps| ==> steps[i].b == b || (i == 0 && holder.Some? && steps[i] == Fail(holder.value))
  }

  lemma {:induction false} PlanIsOwn(env: Env, b: Binder, n: Name, doc: Bytes, x: Inode, y: Inode)
    ensures OwnSteps(Plan(env, b, n, doc, x, y), b, None)
  {
  }

  /** After every run, and for every document, a new invocation on free names has a
      continuation that publishes it: by its own steps when the lock is free, and
      otherwise once the holder has given up. */
  lemma {:induction false} EveryRunCanGoOnToPublish(
      env: Env, others: map<Inode, File>, run: seq<Step>, b: Binder, n: Name, doc: Bytes, x: Inode, y: Inode)
      returns (more: seq<Step>)
    requires Run(env, Root(others), run).Some?
    requires var s := Run(env, Root(others), run).value;
             b !in s.binders && Free(s, n) && x !in s.files && y !in s.files && x != y
    ensures OwnSteps(more, b, Run(env, Root(others), run).value.lock)
    ensures Run(env, Root(others), run + more).Some?
    ensures var t := Run(env, Root(others), run + more).value;
            && b in t.binders && t.binders[b] == Invocation(n, Succeeded) && Completed(env, t, n)
            && Reads(t, n, Manifest, doc)
            && Reads(t, n, Intent, env.marker(n, env.sha(doc))) && Reads(t, n, Complete, env.marker(n, env.sha(doc)))
  {
    var s := Run(env, Root(others), run).value;
    RootInv(env, others);
    RunKeeps(env, Root(others), run);
    PlanIsOwn(env, b, n, doc, x, y);
    more := Plan(env, b, n, doc, x, y);
    if s.lock.None? {
      InvocationCanPublish(env, s, b, n, doc, x, y);
      AfterIsPublished(env, s, b, n, doc, x, y);
      Chained(env, Root(others), run, s, more, After(env, s, b, n, doc, x, y));
    } else {
      var holder := s.lock.value;
      var free := Leave(s, holder, Failed);
      OneStep(env, s, Fail(holder), free);
      Chained(env, Root(others), run, s, [Fail(holder)], free);
      InvocationCanPublish(env, free, b, n, doc, x, y);
      AfterIsPublished(env, free, b, n, doc, x, y);
      Chained(env, Root(others), run + [Fail(holder)], free, more, After(env, free, b, n, doc, x, y));
      assert run + [Fail(holder)] + more == run + ([Fail(holder)] + more);
      more := [Fail(holder)] + more;
    }
  }

  // ----- invocations that must fail ------------------------------------------------------

  /** Who finds the lock held is out at once, and has changed nothing. */
  lemma {:induction false} HeldLockFails(env: Env, s: State, b: Binder)
    requires b in s.binders && s.binders[b].pc.Waiting? && s.lock.Some?
    ensures Apply(env, s, TryLock(b)) == Some(s.(binders := s.binders[b := s.binders[b].(pc := Failed)]))
  {
  }

  /** With any of the three outputs in place an invocation fails in its preflight,
      lets go of the lock, and has changed no name and no file. */
  lemma {:induction false} PreflightFindsOutput(env: Env, s: State, b: Binder, n: Name) returns (checks: nat)
    requires s.lock.None? && b !in s.binders && AnyOutput(s, n)
    ensures 1 <= checks <= 3
    ensures Leads(env, s, Preflight(b, n)[..2 + checks], State(s.dir, s.files, None, s.binders[b := Invocation(n, Failed)]))
  {
    var k := FirstFound(s, n);
    checks := k + 1;
    PreflightIs(b, n, checks);
    assert Checked(b, n, k) + [CheckNext(b)] == Checked(b, n, checks);
    var t := State(s.dir, s.files, None, s.binders[b := Invocation(n, Failed)]);
    PassesChecks(env, s, b, n, k);
    Advances(s, s.dir, s.files, b, n, Checking(k), Failed);
    OneStep(env, With(s, s.dir, s.files, b, n, Checking(k)), CheckNext(b), t);
    Chained(env, s, Checked(b, n, k), With(s, s.dir, s.files, b, n, Checking(k)), [CheckNext(b)], t);
  }

  lemma {:induction false} FirstFound(s: State, n: Name) returns (k: nat)
    requires AnyOutput(s, n)
    ensures k < 3 && Leaf(n, CheckedRole(k)) in s.dir && forall j: nat :: j < k ==> Leaf(n, CheckedRole(j)) !in s.dir
  {
    k := if Leaf(n, Manifest) in s.dir then 0 else if Leaf(n, Complete) in s.dir then 1 else 2;
  }

  /** An invocation that is not out can crash at any moment: the lock is then free if
      it was the holder's, and no name and no file has changed. */
  lemma {:induction false} CrashAtAnyMoment(env: Env, s: State, b: Binder)
    requires Inv(env, s) && b in s.binders
    requires !s.binders[b].pc.Succeeded? && !s.binders[b].pc.Failed? && !s.binders[b].pc.Crashed?
    ensures Apply(env, s, Crash(b)) ==
            Some(State(s.dir, s.files, if s.lock == Some(b) then None else s.lock,
                       s.binders[b := s.binders[b].(pc := Crashed)]))
  {
  }

  /** A short write adds the next `count` bytes of the text, or what is left of it. */
  lemma {:induction false} ShortWriteAppends(s: State, leaf: Leaf, text: Bytes, count: nat)
    requires Exists(s, leaf) && FileAt(s, leaf).data <= text
    ensures var d, t := FileAt(s, leaf).data, Append(s, leaf, text, count);
            && Exists(t, leaf) && d <= FileAt(t, leaf).data <= text
            && |FileAt(t, leaf).data| == (if |d| + count <= |text| then |d| + count else |text|)
            && FileAt(t, leaf).creator == FileAt(s, leaf).creator
  {
  }

  /** Short writes add up: it makes no difference how a text is cut. */
  lemma {:induction false} ShortWritesAddUp(s: State, leaf: Leaf, text: Bytes, p: nat, q: nat)
    requires Exists(s, leaf) && FileAt(s, leaf).data <= text
    ensures Exists(Append(s, leaf, text, p), leaf)
    ensures Append(Append(s, leaf, text, p), leaf, text, q) == Append(s, leaf, text, p + q)
  {
    var t, inode := Append(s, leaf, text, p), s.dir[leaf];
    assert t.files[inode].data == text[..|t.files[inode].data|];
    var last := Append(t, leaf, text, q).files[inode];
    assert last == Append(s, leaf, text, p + q).files[inode];
    assert Append(t, leaf, text, q).files == s.files[inode := last];
  }
}
