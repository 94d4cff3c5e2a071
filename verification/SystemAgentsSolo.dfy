/**
 A call of the bootstrap that nothing interrupts: what it leaves behind, when it succeeds, and
 that starting again after any of its statements comes to the same end.
 */
module SystemAgentsSolo {
  import opened Bytes
  import opened Json
  import opened SystemAgents

  // ----- a whole call -----

  function Rank(pc: Pc): nat
    requires PcOk(pc)
  {
    match pc
    case Start => 20
    case NoProfile => 19
    case HasDefault(_) => 18
    case ProviderSeen(_) => 17
    case AtKey(i, _, _) => 16 - 4 * i
    case Missing(i, _, _) => 15 - 4 * i
    case Stale(i, _, _, _) => 15 - 4 * i
    case Reread(i, _, _, _) => 14 - 4 * i
    case Done(_) => 0
    case Failed(_) => 0
  }

  predicate Over(pc: Pc) { pc.Done? || pc.Failed? }

  /** A call that runs alone from `pc` to its end. */
  function Run(b: Build, owner: int, db: Db, pc: Pc): (r: (Db, Pc))
    requires PcOk(pc)
    ensures Over(r.1)
    decreases Rank(pc)
  {
    if Over(pc) then (db, pc)
    else
      var (after, next) := CallStep(b, owner, db, pc);
      Run(b, owner, after, next)
  }

  /** The same call, cut off after at most `n` statements. */
  function Cut(b: Build, owner: int, db: Db, n: nat): (r: (Db, Pc))
    ensures PcOk(r.1)
  {
    if n == 0 then (db, Start)
    else
      var (before, pc) := Cut(b, owner, db, n - 1);
      CallStep(b, owner, before, pc)
  }

  // ----- running again -----

  /** The rows of the first keys, as the tables hold them now, all of them current. */
  ghost predicate Seen(b: Build, owner: int, db: Db, n: nat, rows: seq<(int, Row)>) {
    |rows| == n <= 4
    && forall j | 0 <= j < n ::
         && FindRow(db, owner, KEYS[j]) == Some(rows[j].0)
         && rows[j].0 in db.agents && rows[j].1 == db.agents[rows[j].0]
         && rows[j].1.version == Some(b.version)
  }

  ghost predicate SeenAt(b: Build, owner: int, db: Db, i: nat, profile: int, rows: seq<(int, Row)>) {
    i < 4 && FindProfile(db, owner) == Some(profile) && Seen(b, owner, db, i, rows)
  }

  /** What a lone call knows of the tables at each point. */
  ghost predicate Consistent(b: Build, owner: int, db: Db, pc: Pc) {
    match pc
    case Start => true
    case NoProfile => FindProfile(db, owner).None?
    case HasDefault(d) => FindProfile(db, owner).None? && ParseDefault(db.setting) == Some(d)
    case ProviderSeen(d) =>
      FindProfile(db, owner).None? && ParseDefault(db.setting) == Some(d) && d.provider in db.providers
    case AtKey(i, profile, rows) => SeenAt(b, owner, db, i, profile, rows)
    case Missing(i, profile, rows) => SeenAt(b, owner, db, i, profile, rows) && FindRow(db, owner, KEYS[i]).None?
    case Stale(i, profile, rows, id) =>
      && SeenAt(b, owner, db, i, profile, rows) && FindRow(db, owner, KEYS[i]) == Some(id)
      && id in db.agents && db.agents[id].version != Some(b.version)
    case Reread(i, profile, rows, id) =>
      && SeenAt(b, owner, db, i, profile, rows) && FindRow(db, owner, KEYS[i]) == Some(id)
      && id in db.agents && db.agents[id].version == Some(b.version)
    case Done(rows) => FindProfile(db, owner).Some? && Seen(b, owner, db, 4, rows)
    case Failed(_) => Run(b, owner, db, Start) == (db, pc)
  }

  /** Under the constraints of the table, a query by key finds the one row there is. */
  lemma FindsIt(db: Db, owner: int, k: SystemKey, id: int)
    requires DbInv(db) && OwnRow(owner, db, k, id)
    ensures FindRow(db, owner, k) == Some(id)
  {
    FoundRow(db, owner, k);
  }

  lemma KeyNamesDiffer(i: nat, j: nat)
    requires i < 4 && j < 4 && i != j
    ensures KeyName(KEYS[i]) != KeyName(KEYS[j]) && RowName(KEYS[i]) != RowName(KEYS[j])
  {
    assert KeyName(KEYS[0])[0] == 'c' && KeyName(KEYS[1])[0] == 'h';
    assert KeyName(KEYS[2])[0] == 'p' && KeyName(KEYS[3])[0] == 's';
    assert RowName(KEYS[i])[7] == KeyName(KEYS[i])[0] && RowName(KEYS[j])[7] == KeyName(KEYS[j])[0];
  }

  /** A call at its first unvisited key has come there by reading only, as a new one would. */
  lemma {:induction false} RestartAtKey(b: Build, owner: int, db: Db, i: nat, profile: int, rows: seq<(int, Row)>)
    requires SeenAt(b, owner, db, i, profile, rows)
    ensures Run(b, owner, db, Start) == Run(b, owner, db, AtKey(i, profile, rows))
  {
    if i == 0 {
      assert rows == [];
    } else {
      var front := rows[..i - 1];
      RestartAtKey(b, owner, db, i - 1, profile, front);
      assert rows == front + [(rows[i - 1].0, db.agents[rows[i - 1].0])];
      assert CallStep(b, owner, db, AtKey(i - 1, profile, front)) == (db, AtKey(i, profile, rows));
    }
  }

  lemma RestartWhenDone(b: Build, owner: int, db: Db, rows: seq<(int, Row)>)
    requires Consistent(b, owner, db, Done(rows))
    ensures Run(b, owner, db, Start) == (db, Done(rows))
  {
    var profile, front := FindProfile(db, owner).value, rows[..3];
    RestartAtKey(b, owner, db, 3, profile, front);
    assert rows == front + [(rows[3].0, db.agents[rows[3].0])];
    assert CallStep(b, owner, db, AtKey(3, profile, front)) == (db, Done(rows));
  }

  /** Starting again from the tables that a lone call has reached comes to its end. */
  lemma Restart(b: Build, owner: int, db: Db, pc: Pc)
    requires PcOk(pc) && Consistent(b, owner, db, pc)
    ensures Run(b, owner, db, Start) == Run(b, owner, db, pc)
  {
    match pc
    case Start =>
    case NoProfile =>
    case HasDefault(d) =>
      assert CallStep(b, owner, db, Start) == (db, NoProfile);
      assert CallStep(b, owner, db, NoProfile) == (db, pc);
    case ProviderSeen(d) =>
      assert CallStep(b, owner, db, Start) == (db, NoProfile);
      assert CallStep(b, owner, db, NoProfile) == (db, HasDefault(d));
      assert CallStep(b, owner, db, HasDefault(d)) == (db, pc);
      assert Run(b, owner, db, NoProfile) == Run(b, owner, db, HasDefault(d));
    case AtKey(i, profile, rows) => RestartAtKey(b, owner, db, i, profile, rows);
    case Missing(i, profile, rows) => RestartAtKey(b, owner, db, i, profile, rows);
    case Stale(i, profile, rows, id) => RestartAtKey(b, owner, db, i, profile, rows);
    case Reread(i, profile, rows, id) =>
      RestartAtKey(b, owner, db, i, profile, rows);
      assert CallStep(b, owner, db, AtKey(i, profile, rows)) == CallStep(b, owner, db, pc);
    case Done(rows) => RestartWhenDone(b, owner, db, rows);
    case Failed(_) =>
  }

  // ----- each statement of a lone call -----

  /** Rows that a call has seen are still what it saw, when another row is written. */
  lemma SeenStays(b: Build, owner: int, db: Db, after: Db, n: nat, rows: seq<(int, Row)>)
    requires DbInv(db) && DbInv(after) && Seen(b, owner, db, n, rows)
    requires forall j | 0 <= j < n :: rows[j].0 in after.agents && after.agents[rows[j].0] == db.agents[rows[j].0]
    ensures Seen(b, owner, after, n, rows)
  {
    forall j | 0 <= j < n ensures FindRow(after, owner, KEYS[j]) == Some(rows[j].0) {
      FoundRow(db, owner, KEYS[j]);
      FindsIt(after, owner, KEYS[j], rows[j].0);
    }
  }

  lemma SeenPushed(b: Build, owner: int, db: Db, i: nat, profile: int, rows: seq<(int, Row)>, id: int)
    requires SeenAt(b, owner, db, i, profile, rows)
    requires FindRow(db, owner, KEYS[i]) == Some(id) && id in db.agents && db.agents[id].version == Some(b.version)
    ensures Consistent(b, owner, db, Pushed(i, profile, rows, id, db.agents[id]))
  {
    var all := rows + [(id, db.agents[id])];
    forall j | 0 <= j < i + 1
      ensures && FindRow(db, owner, KEYS[j]) == Some(all[j].0) && all[j].0 in db.agents
              && all[j].1 == db.agents[all[j].0] && all[j].1.version == Some(b.version)
    {
      if j < i {
        assert all[j] == rows[j];
      }
    }
  }

  lemma SeenInserted(b: Build, owner: int, db: Db, i: nat, profile: int, rows: seq<(int, Row)>)
    requires DbInv(db) && SeenAt(b, owner, db, i, profile, rows)
    requires CanInsertAgent(db, NewRow(b, owner, KEYS[i], profile))
    ensures var after := InsertAgent(db, NewRow(b, owner, KEYS[i], profile));
            DbInv(after) && Consistent(b, owner, after, Reread(i, profile, rows, db.nextAgent))
  {
    var after := InsertAgent(db, NewRow(b, owner, KEYS[i], profile));
    InsertIsSafe(db, NewRow(b, owner, KEYS[i], profile));
    assert ProfilesOf(after, owner) == ProfilesOf(db, owner);
    SeenStays(b, owner, db, after, i, rows);
    FindsIt(after, owner, KEYS[i], db.nextAgent);
  }

  lemma SeenRewritten(b: Build, owner: int, db: Db, i: nat, profile: int, rows: seq<(int, Row)>, id: int)
    requires DbInv(db) && SeenAt(b, owner, db, i, profile, rows) && FindRow(db, owner, KEYS[i]) == Some(id)
    ensures id in db.agents
    ensures var after := db.(agents := db.agents[id := Rewritten(b, KEYS[i], db.agents[id])]);
            DbInv(after) && Consistent(b, owner, after, Reread(i, profile, rows, id))
  {
    FoundRow(db, owner, KEYS[i]);
    var after := db.(agents := db.agents[id := Rewritten(b, KEYS[i], db.agents[id])]);
    RewriteIsSafe(b, db, KEYS[i], id);
    assert ProfilesOf(after, owner) == ProfilesOf(db, owner);
    forall j | 0 <= j < i ensures rows[j].0 != id {
      KeyNamesDiffer(i, j);
      FoundRow(db, owner, KEYS[j]);
    }
    SeenStays(b, owner, db, after, i, rows);
    FindsIt(after, owner, KEYS[i], id);
  }

  lemma ProfileInserted(b: Build, owner: int, db: Db, d: DefaultModel)
    requires DbInv(db) && FindProfile(db, owner).None? && d.provider in db.providers
    ensures CanInsertProfile(db, DefaultProfile(owner, d)) <==> owner in db.owners
    ensures owner in db.owners ==>
            var after := InsertProfile(db, DefaultProfile(owner, d));
            DbInv(after) && FindProfile(after, owner) == Some(db.nextProfile)
  {
    assert forall id | id in db.profiles :: db.profiles[id].owner == owner ==> id in ProfilesOf(db, owner);
    var after := InsertProfile(db, DefaultProfile(owner, d));
    assert db.nextProfile in ProfilesOf(after, owner);
    assert forall id :: id in ProfilesOf(after, owner) ==> id == db.nextProfile || id in ProfilesOf(db, owner);
  }

  /** A failure leaves the tables as the failing statement found them. */
  lemma FailureIsConsistent(b: Build, owner: int, db: Db, pc: Pc)
    requires PcOk(pc) && !Over(pc) && Consistent(b, owner, db, pc)
    requires CallStep(b, owner, db, pc).1.Failed?
    ensures CallStep(b, owner, db, pc).0 == db
    ensures Consistent(b, owner, db, CallStep(b, owner, db, pc).1)
  {
    Restart(b, owner, db, pc);
    assert Run(b, owner, db, pc) == CallStep(b, owner, db, pc);
  }

  lemma StepIsConsistent(b: Build, owner: int, db: Db, pc: Pc)
    requires PcOk(pc) && DbInv(db) && Consistent(b, owner, db, pc)
    ensures DbInv(CallStep(b, owner, db, pc).0)
    ensures Consistent(b, owner, CallStep(b, owner, db, pc).0, CallStep(b, owner, db, pc).1)
  {
    if Over(pc) {
    } else if CallStep(b, owner, db, pc).1.Failed? {
      FailureIsConsistent(b, owner, db, pc);
    } else {
      match pc
      case ProviderSeen(d) => ProfileInserted(b, owner, db, d);
      case AtKey(i, profile, rows) =>
        if FindRow(db, owner, KEYS[i]).Some? {
          var id := FindRow(db, owner, KEYS[i]).value;
          FoundRow(db, owner, KEYS[i]);
          if db.agents[id].version == Some(b.version) {
            SeenPushed(b, owner, db, i, profile, rows, id);
          }
        }
      case Missing(i, profile, rows) => SeenInserted(b, owner, db, i, profile, rows);
      case Stale(i, profile, rows, id) => SeenRewritten(b, owner, db, i, profile, rows, id);
      case Reread(i, profile, rows, id) => SeenPushed(b, owner, db, i, profile, rows, id);
      case _ =>
    }
  }

  // ----- convergence -----

  lemma RunOfStep(b: Build, owner: int, db: Db, pc: Pc)
    requires PcOk(pc)
    ensures Run(b, owner, CallStep(b, owner, db, pc).0, CallStep(b, owner, db, pc).1) == Run(b, owner, db, pc)
  {
  }

  lemma {:induction false} CutIsConsistent(b: Build, owner: int, db: Db, n: nat)
    requires DbInv(db)
    ensures DbInv(Cut(b, owner, db, n).0) && Consistent(b, owner, Cut(b, owner, db, n).0, Cut(b, owner, db, n).1)
  {
    if n > 0 {
      CutIsConsistent(b, owner, db, n - 1);
      var cut := Cut(b, owner, db, n - 1);
      StepIsConsistent(b, owner, cut.0, cut.1);
      assert Cut(b, owner, db, n) == CallStep(b, owner, cut.0, cut.1);
    }
  }

  lemma {:induction false} CutGoesOn(b: Build, owner: int, db: Db, n: nat)
    ensures Run(b, owner, Cut(b, owner, db, n).0, Cut(b, owner, db, n).1) == Run(b, owner, db, Start)
  {
    if n > 0 {
      CutGoesOn(b, owner, db, n - 1);
      RunOfStep(b, owner, Cut(b, owner, db, n - 1).0, Cut(b, owner, db, n - 1).1);
    }
  }

  /**
   Convergence: cut off after any statement and called again, the bootstrap leaves the very
   tables, and returns the very answer, of a call that was not cut off.
   */
  lemma RerunConverges(b: Build, owner: int, db: Db, n: nat)
    requires DbInv(db)
    ensures Run(b, owner, Cut(b, owner, db, n).0, Start) == Run(b, owner, db, Start)
  {
    CutIsConsistent(b, owner, db, n);
    CutGoesOn(b, owner, db, n);
    Restart(b, owner, Cut(b, owner, db, n).0, Cut(b, owner, db, n).1);
  }

  lemma {:induction false} RunIsConsistent(b: Build, owner: int, db: Db, pc: Pc)
    requires PcOk(pc) && DbInv(db) && Consistent(b, owner, db, pc)
    ensures DbInv(Run(b, owner, db, pc).0) && Consistent(b, owner, Run(b, owner, db, pc).0, Run(b, owner, db, pc).1)
    decreases Rank(pc)
  {
    if !Over(pc) {
      var next := CallStep(b, owner, db, pc);
      StepIsConsistent(b, owner, db, pc);
      RunIsConsistent(b, owner, next.0, next.1);
    }
  }

  /** A second call changes nothing and answers as the first. */
  lemma RepeatChangesNothing(b: Build, owner: int, db: Db)
    requires DbInv(db)
    ensures var (after, end) := Run(b, owner, db, Start);
            Run(b, owner, after, Start) == (after, end)
  {
    RunIsConsistent(b, owner, db, Start);
    var (after, end) := Run(b, owner, db, Start);
    Restart(b, owner, after, end);
  }

  // ----- what a call leaves -----

  /**
   What a call of `owner` may have done to the tables: inserted rows of missing keys, rewritten
   the content and version of its own rows that were not current, and inserted the default
   profile when the owner had none. Everything else is as it was.
   */
  ghost predicate OnlyBootstrapped(b: Build, owner: int, before: Db, after: Db) {
    && after.setting == before.setting && after.providers == before.providers && after.owners == before.owners
    && before.nextAgent <= after.nextAgent
    && (after.profiles == before.profiles
        || (FindProfile(before, owner).None? && ParseDefault(before.setting).Some?
            && ParseDefault(before.setting).value.provider in before.providers
            && after.profiles
               == before.profiles[before.nextProfile := DefaultProfile(owner, ParseDefault(before.setting).value)]))
    && (forall id | id in before.agents ::
          && id in after.agents
          && (after.agents[id] == before.agents[id] || Refreshed(b, owner, before.agents[id], after.agents[id])))
    && (forall id | id in after.agents && id !in before.agents ::
          id >= before.nextAgent && Created(b, owner, after, after.agents[id]))
  }

  /** The system key that a row carries. */
  function KeyOf(row: Row): Option<SystemKey> {
    if row.key == Some(KeyName(ConfigKey)) then Some(ConfigKey)
    else if row.key == Some(KeyName(HomeKey)) then Some(HomeKey)
    else if row.key == Some(KeyName(ProjectKey)) then Some(ProjectKey)
    else if row.key == Some(KeyName(SandboxKey)) then Some(SandboxKey)
    else None
  }

  lemma KeyOfSystemRow(row: Row, k: SystemKey)
    requires row.key == Some(KeyName(k))
    ensures KeyOf(row) == Some(k)
  {
    assert KeyName(ConfigKey)[0] == 'c' && KeyName(HomeKey)[0] == 'h';
    assert KeyName(ProjectKey)[0] == 'p' && KeyName(SandboxKey)[0] == 's';
  }

  /** `now` is the owner's outdated system row `was`, with the embedded content and version. */
  ghost predicate Refreshed(b: Build, owner: int, was: Row, now: Row) {
    && was.owner == owner && was.version != Some(b.version)
    && KeyOf(was).Some? && now == Rewritten(b, KeyOf(was).value, was)
  }

  ghost predicate Created(b: Build, owner: int, db: Db, row: Row) {
    && FindProfile(db, owner).Some?
    && KeyOf(row).Some? && row == NewRow(b, owner, KeyOf(row).value, FindProfile(db, owner).value)
  }

  lemma OnlyBootstrappedByInsert(b: Build, owner: int, before: Db, db: Db, k: SystemKey, profile: int)
    requires DbInv(before) && DbInv(db) && OnlyBootstrapped(b, owner, before, db)
    requires FindProfile(db, owner) == Some(profile)
    ensures OnlyBootstrapped(b, owner, before, InsertAgent(db, NewRow(b, owner, k, profile)))
  {
    var row := NewRow(b, owner, k, profile);
    var after := InsertAgent(db, row);
    assert ProfilesOf(after, owner) == ProfilesOf(db, owner);
    KeyOfSystemRow(row, k);
  }

  lemma OnlyBootstrappedByRewrite(b: Build, owner: int, before: Db, db: Db, k: SystemKey, id: int)
    requires DbInv(before) && DbInv(db) && OnlyBootstrapped(b, owner, before, db)
    requires OwnRow(owner, db, k, id) && db.agents[id].version != Some(b.version)
    ensures OnlyBootstrapped(b, owner, before, db.(agents := db.agents[id := Rewritten(b, k, db.agents[id])]))
  {
    var after := db.(agents := db.agents[id := Rewritten(b, k, db.agents[id])]);
    assert ProfilesOf(after, owner) == ProfilesOf(db, owner);
    KeyOfSystemRow(db.agents[id], k);
    assert forall x | x in db.agents && x !in before.agents :: db.agents[x].version == Some(b.version);
  }

  lemma OnlyBootstrappedByStep(b: Build, owner: int, before: Db, db: Db, pc: Pc)
    requires PcOk(pc) && DbInv(before) && DbInv(db) && Consistent(b, owner, db, pc)
    requires OnlyBootstrapped(b, owner, before, db)
    requires pc.ProviderSeen? ==> db == before
    ensures OnlyBootstrapped(b, owner, before, CallStep(b, owner, db, pc).0)
  {
    match pc
    case ProviderSeen(d) => ProfileInserted(b, owner, db, d);
    case Missing(i, profile, rows) =>
      OnlyBootstrappedByInsert(b, owner, before, db, KEYS[i], profile);
    case Stale(i, profile, rows, id) =>
      FoundRow(db, owner, KEYS[i]);
      OnlyBootstrappedByRewrite(b, owner, before, db, KEYS[i], id);
    case _ =>
  }

  /** Before the first key only the last statement writes. */
  predicate Early(pc: Pc) { pc.Start? || pc.NoProfile? || pc.HasDefault? || pc.ProviderSeen? }

  lemma EarlyReads(b: Build, owner: int, db: Db, pc: Pc)
    requires PcOk(pc) && Early(CallStep(b, owner, db, pc).1)
    ensures Early(pc) && CallStep(b, owner, db, pc).0 == db
  {
  }

  /** A call that started on `before` is at `pc`, on tables `db`. */
  ghost predicate Going(b: Build, owner: int, before: Db, db: Db, pc: Pc) {
    && PcOk(pc) && DbInv(db) && Consistent(b, owner, db, pc)
    && OnlyBootstrapped(b, owner, before, db) && (Early(pc) ==> db == before)
  }

  lemma StepGoesOn(b: Build, owner: int, before: Db, db: Db, pc: Pc)
    requires DbInv(before) && Going(b, owner, before, db, pc)
    ensures Going(b, owner, before, CallStep(b, owner, db, pc).0, CallStep(b, owner, db, pc).1)
  {
    StepIsConsistent(b, owner, db, pc);
    OnlyBootstrappedByStep(b, owner, before, db, pc);
    if Early(CallStep(b, owner, db, pc).1) {
      EarlyReads(b, owner, db, pc);
    }
  }

  lemma {:induction false} RunGoesOn(b: Build, owner: int, before: Db, db: Db, pc: Pc)
    requires DbInv(before) && Going(b, owner, before, db, pc)
    ensures Going(b, owner, before, Run(b, owner, db, pc).0, Run(b, owner, db, pc).1)
    decreases Rank(pc)
  {
    if !Over(pc) {
      var next := CallStep(b, owner, db, pc);
      StepGoesOn(b, owner, before, db, pc);
      RunOfStep(b, owner, db, pc);
      RunGoesOn(b, owner, before, next.0, next.1);
    }
  }

  /**
   A call, whatever its answer, only bootstraps; and when it succeeds it answers with one row per
   key in key order, each current and exactly as the tables now hold it.
   */
  lemma CallOnlyBootstraps(b: Build, owner: int, db: Db)
    requires DbInv(db)
    ensures var (after, end) := Run(b, owner, db, Start);
            && DbInv(after) && OnlyBootstrapped(b, owner, db, after)
            && (end.Done? ==> Answer(b, owner, after, end.rows))
  {
    RunGoesOn(b, owner, db, db, Start);
    var (after, end) := Run(b, owner, db, Start);
    if end.Done? {
      forall j | 0 <= j < 4 ensures OwnRow(owner, after, KEYS[j], end.rows[j].0) {
        FoundRow(after, owner, KEYS[j]);
      }
    }
  }

  ghost predicate Answer(b: Build, owner: int, db: Db, rows: seq<(int, Row)>) {
    |rows| == 4 && forall j | 0 <= j < 4 ::
      && OwnRow(owner, db, KEYS[j], rows[j].0) && rows[j].1 == db.agents[rows[j].0]
      && rows[j].1.version == Some(b.version)
  }

  /** Rows that existed keep their identity, name and model, and the answer names them. */
  lemma ExistingRowsAreAnswered(b: Build, owner: int, db: Db, j: nat, id: int)
    requires DbInv(db) && j < 4 && OwnRow(owner, db, KEYS[j], id)
    ensures var (after, end) := Run(b, owner, db, Start);
            && OwnRow(owner, after, KEYS[j], id)
            && after.agents[id].name == db.agents[id].name && after.agents[id].profile == db.agents[id].profile
            && (end.Done? ==> |end.rows| == 4 && end.rows[j] == (id, after.agents[id]))
  {
    CallOnlyBootstraps(b, owner, db);
    var (after, end) := Run(b, owner, db, Start);
    if end.Done? {
      FindsIt(after, owner, KEYS[j], id);
      FindsIt(after, owner, KEYS[j], end.rows[j].0);
    }
  }

  /**
   A successful call rewrites a row if and only if its version is another than the embedded one,
   be it older, newer or absent.
   */
  lemma AnyOtherVersionIsRewritten(b: Build, owner: int, db: Db, j: nat, id: int)
    requires DbInv(db) && j < 4 && OwnRow(owner, db, KEYS[j], id) && Run(b, owner, db, Start).1.Done?
    ensures id in Run(b, owner, db, Start).0.agents
    ensures Run(b, owner, db, Start).0.agents[id]
            == if db.agents[id].version == Some(b.version) then db.agents[id] else Rewritten(b, KEYS[j], db.agents[id])
  {
    CallOnlyBootstraps(b, owner, db);
    ExistingRowsAreAnswered(b, owner, db, j, id);
    KeyOfSystemRow(db.agents[id], KEYS[j]);
  }

  /**
   Whatever a history of calls and edits has left of a system row, a call that then runs undisturbed
   and succeeds makes it current, with the embedded contents where it was not, and keeps its model.
   */
  lemma LaterCallRepairs(b: Build, w: World, events: seq<Event>, owner: int, j: nat, id: int)
    requires Inv(w) && j < 4
    requires OwnRow(owner, History(b, w, events).db, KEYS[j], id)
    requires Run(b, owner, History(b, w, events).db, Start).1.Done?
    ensures var (before, after) := (History(b, w, events).db, Run(b, owner, History(b, w, events).db, Start).0);
            && Current(b, after, id) && after.agents[id].profile == before.agents[id].profile
            && (!Current(b, before, id) ==> HasContents(b, KEYS[j], after.agents[id]))
  {
    HistoryIsSafe(b, w, events);
    AnyOtherVersionIsRewritten(b, owner, History(b, w, events).db, j, id);
  }

  // ----- the same, column by column -----

  /** The texts of the keys, in the order of the answer. */
  const KEY_TEXTS := ["config", "home", "project", "sandbox"]

  lemma KeyTexts(j: nat)
    requires j < 4
    ensures KeyName(KEYS[j]) == KEY_TEXTS[j] && RowName(KEYS[j]) == "system-" + KEY_TEXTS[j]
  {
  }

  /** The row of the owner under the `j`-th key, with the version and the contents of the build. */
  ghost predicate IsBuilt(b: Build, owner: int, j: nat, row: Row) {
    && j < 4 && row.owner == owner && row.key == Some(KEY_TEXTS[j]) && row.version == Some(b.version)
    && HasContents(b, KEYS[j], row)
  }

  /** A row that was there had another version and keeps its name and model; a new one has the owner's first profile. */
  ghost predicate KeepsOrStarts(b: Build, owner: int, before: Db, after: Db, j: nat, id: int)
    requires j < 4 && id in after.agents
  {
    var row := after.agents[id];
    if id in before.agents then
      var was := before.agents[id];
      && was.version != Some(b.version)
      && was.owner == row.owner && was.key == row.key && was.name == row.name && was.profile == row.profile
    else row.name == "system-" + KEY_TEXTS[j] && IsFirstProfile(after, owner, row.profile)
  }

  lemma KeyOfText(row: Row) returns (j: nat)
    requires KeyOf(row).Some?
    ensures j < 4 && KEYS[j] == KeyOf(row).value && row.key == Some(KEY_TEXTS[j])
  {
    j := match KeyOf(row).value case ConfigKey => 0 case HomeKey => 1 case ProjectKey => 2 case SandboxKey => 3;
    KeyTexts(j);
  }

  /** Every row that a call, whatever its answer, inserted or changed. */
  lemma WrittenRow(b: Build, owner: int, db: Db, id: int) returns (j: nat)
    requires DbInv(db) && id in Run(b, owner, db, Start).0.agents
    requires id in db.agents ==> Run(b, owner, db, Start).0.agents[id] != db.agents[id]
    ensures IsBuilt(b, owner, j, Run(b, owner, db, Start).0.agents[id])
    ensures KeepsOrStarts(b, owner, db, Run(b, owner, db, Start).0, j, id)
  {
    CallOnlyBootstraps(b, owner, db);
    var after := Run(b, owner, db, Start).0;
    j := KeyOfText(after.agents[id]);
    FoundProfile(after, owner);
  }

  /** The rows of a successful answer: under the four keys in order, and built where they were not there or outdated. */
  lemma AnsweredRows(b: Build, owner: int, db: Db, j: nat)
    requires DbInv(db) && j < 4 && Run(b, owner, db, Start).1.Done?
    ensures |Run(b, owner, db, Start).1.rows| == 4
    ensures var (after, end) := Run(b, owner, db, Start);
            var (id, row) := end.rows[j];
            && id in after.agents && row == after.agents[id]
            && row.owner == owner && row.key == Some(KEY_TEXTS[j]) && row.version == Some(b.version)
            && (id !in db.agents || db.agents[id].version != Some(b.version) ==> HasContents(b, KEYS[j], row))
  {
    CallOnlyBootstraps(b, owner, db);
    KeyTexts(j);
    var (after, end) := Run(b, owner, db, Start);
    var (id, row) := end.rows[j];
    if id !in db.agents || db.agents[id].version != Some(b.version) {
      var k := WrittenRow(b, owner, db, id);
      if j != k {
        KeyNamesDiffer(j, k);
        KeyTexts(k);
      }
    }
  }

  /** The profiles after a call: as before, or with the default one for an owner that had none. */
  lemma WrittenProfile(b: Build, owner: int, db: Db)
    requires DbInv(db) && Run(b, owner, db, Start).0.profiles != db.profiles
    ensures forall id :: !OwnProfile(db, owner, id)
    ensures exists d ::
              && IsDefault(db.setting, d) && d.provider in db.providers
              && Run(b, owner, db, Start).0.profiles
                 == db.profiles[db.nextProfile := Profile(owner, "default", d.provider, d.model, d.options)]
  {
    CallOnlyBootstraps(b, owner, db);
    FoundProfile(db, owner);
    ParsedIff(db.setting, ParseDefault(db.setting).value);
  }

  // ----- when a call succeeds -----

  /** A setting `default_model` that can be used: well-formed, with a provider that exists. */
  predicate UsableDefault(db: Db) {
    ParseDefault(db.setting).Some? && ParseDefault(db.setting).value.provider in db.providers
  }

  /** The row of the key is there, or the name it takes is free. */
  predicate RoomFor(db: Db, owner: int, k: SystemKey) {
    FindRow(db, owner, k).Some? || !NameTaken(db, owner, RowName(k))
  }

  lemma RoomStays(db: Db, after: Db, owner: int, i: nat, j: nat, id: int)
    requires DbInv(db) && DbInv(after) && i < 4 && j < 4 && i != j
    requires id in after.agents && after.agents == db.agents[id := after.agents[id]]
    requires after.agents[id].key == Some(KeyName(KEYS[i]))
    requires id in db.agents ==> after.agents[id].key == db.agents[id].key
    requires id in db.agents ==> after.agents[id].name == db.agents[id].name
    requires id in db.agents ==> after.agents[id].owner == db.agents[id].owner
    requires id !in db.agents ==> after.agents[id].name == RowName(KEYS[i])
    ensures RoomFor(after, owner, KEYS[j]) <==> RoomFor(db, owner, KEYS[j])
  {
    KeyNamesDiffer(i, j);
    var k := KEYS[j];
    FoundRow(db, owner, k);
    FoundRow(after, owner, k);
    assert forall x :: OwnRow(owner, after, k, x) <==> OwnRow(owner, db, k, x);
    if NameTaken(db, owner, RowName(k)) {
      var x :| x in db.agents && db.agents[x].owner == owner && db.agents[x].name == RowName(k);
      assert x in after.agents && after.agents[x].owner == owner && after.agents[x].name == RowName(k);
    }
    if NameTaken(after, owner, RowName(k)) {
      var x :| x in after.agents && after.agents[x].owner == owner && after.agents[x].name == RowName(k);
      assert x in db.agents && db.agents[x].owner == owner && db.agents[x].name == RowName(k);
    }
  }

  /** Where a key has no row, only its name can keep one from being inserted. */
  lemma OnlyTheNameCollides(b: Build, owner: int, db: Db, i: nat, profile: int, rows: seq<(int, Row)>)
    requires DbInv(db) && SeenAt(b, owner, db, i, profile, rows) && FindRow(db, owner, KEYS[i]).None?
    ensures CanInsertAgent(db, NewRow(b, owner, KEYS[i], profile)) <==> RoomFor(db, owner, KEYS[i])
  {
    FoundRow(db, owner, KEYS[i]);
    var row := NewRow(b, owner, KEYS[i], profile);
    assert forall id | id in db.agents && db.agents[id].owner == owner && db.agents[id].key == row.key ::
             OwnRow(owner, db, KEYS[i], id);
  }

  /** The statements on one key: they fail exactly when its name is taken. */
  lemma OneKey(b: Build, owner: int, db: Db, i: nat, profile: int, rows: seq<(int, Row)>) returns (after: Db, next: Pc)
    requires DbInv(db) && SeenAt(b, owner, db, i, profile, rows)
    ensures PcOk(next) && Run(b, owner, db, AtKey(i, profile, rows)) == Run(b, owner, after, next)
    ensures if next.Failed? then next.error == DbError
            else if i < 3 then next.AtKey? && next.i == i + 1 && next.profile == profile else next.Done?
    ensures next.Failed? <==> !RoomFor(db, owner, KEYS[i])
    ensures !next.Failed? ==> DbInv(after) && Consistent(b, owner, after, next)
    ensures !next.Failed? ==> forall j | i < j < 4 :: RoomFor(after, owner, KEYS[j]) <==> RoomFor(db, owner, KEYS[j])
  {
    var pc := AtKey(i, profile, rows);
    StepIsConsistent(b, owner, db, pc);
    FoundRow(db, owner, KEYS[i]);
    after, next := db, CallStep(b, owner, db, pc).1;
    if next.Missing? || next.Stale? {
      after, next := WriteKey(b, owner, db, next, i, profile, rows);
    }
  }

  lemma WriteKey(b: Build, owner: int, db: Db, pc: Pc, i: nat, profile: int, rows: seq<(int, Row)>)
    returns (after: Db, next: Pc)
    requires DbInv(db) && Consistent(b, owner, db, pc) && i < 4
    requires pc == Missing(i, profile, rows) || (pc.Stale? && pc == Stale(i, profile, rows, pc.id))
    ensures PcOk(next) && Run(b, owner, db, pc) == Run(b, owner, after, next)
    ensures if next.Failed? then next.error == DbError
            else if i < 3 then next.AtKey? && next.i == i + 1 && next.profile == profile else next.Done?
    ensures next.Failed? <==> !RoomFor(db, owner, KEYS[i])
    ensures !next.Failed? ==> DbInv(after) && Consistent(b, owner, after, next)
    ensures !next.Failed? ==> forall j | i < j < 4 :: RoomFor(after, owner, KEYS[j]) <==> RoomFor(db, owner, KEYS[j])
  {
    StepIsConsistent(b, owner, db, pc);
    RunOfStep(b, owner, db, pc);
    if pc.Missing? {
      OnlyTheNameCollides(b, owner, db, i, profile, rows);
    }
    var written := CallStep(b, owner, db, pc);
    after, next := written.0, written.1;
    if next.Reread? {
      StepIsConsistent(b, owner, after, next);
      RunOfStep(b, owner, after, next);
      forall j | i < j < 4 ensures RoomFor(after, owner, KEYS[j]) <==> RoomFor(db, owner, KEYS[j]) {
        RoomStays(db, after, owner, i, j, next.id);
      }
      next := CallStep(b, owner, after, next).1;
    }
  }

  lemma {:induction false} SucceedsFromKey(b: Build, owner: int, db: Db, i: nat, profile: int, rows: seq<(int, Row)>)
    requires DbInv(db) && SeenAt(b, owner, db, i, profile, rows)
    ensures var end := Run(b, owner, db, AtKey(i, profile, rows)).1;
            && (end.Done? <==> forall j | i <= j < 4 :: RoomFor(db, owner, KEYS[j]))
            && (end.Failed? ==> end.error == DbError)
    decreases 4 - i
  {
    var after, next := OneKey(b, owner, db, i, profile, rows);
    if next.AtKey? {
      SucceedsFromKey(b, owner, after, i + 1, profile, next.rows);
    }
  }

  /** The statements before the first key: which profile a call attaches its rows to, if any. */
  lemma ProfileOrNone(b: Build, owner: int, db: Db)
    requires DbInv(db)
    ensures FindProfile(db, owner).Some? ==>
              Run(b, owner, db, Start) == Run(b, owner, db, AtKey(0, FindProfile(db, owner).value, []))
    ensures FindProfile(db, owner).None? && !UsableDefault(db) ==>
              Run(b, owner, db, Start) == (db, Failed(NoModelProfile))
    ensures FindProfile(db, owner).None? && UsableDefault(db) ==>
              var d := ParseDefault(db.setting).value;
              && (CanInsertProfile(db, DefaultProfile(owner, d)) <==> owner in db.owners)
              && Run(b, owner, db, Start)
                 == if owner in db.owners
                    then Run(b, owner, InsertProfile(db, DefaultProfile(owner, d)), AtKey(0, db.nextProfile, []))
                    else (db, Failed(DbError))
  {
    if FindProfile(db, owner).None? {
      assert CallStep(b, owner, db, Start) == (db, NoProfile);
      RunOfStep(b, owner, db, NoProfile);
      if ParseDefault(db.setting).Some? {
        var d := ParseDefault(db.setting).value;
        RunOfStep(b, owner, db, HasDefault(d));
        if d.provider in db.providers {
          ProfileInserted(b, owner, db, d);
          RunOfStep(b, owner, db, ProviderSeen(d));
        }
      }
    }
  }

  /** The setting names a default whose provider exists. */
  ghost predicate DefaultExists(db: Db) {
    exists d :: IsDefault(db.setting, d) && d.provider in db.providers
  }

  lemma UsableIff(db: Db)
    ensures UsableDefault(db) <==> DefaultExists(db)
  {
    if UsableDefault(db) {
      ParsedIff(db.setting, ParseDefault(db.setting).value);
    }
    if d :| IsDefault(db.setting, d) && d.provider in db.providers {
      ParsedIff(db.setting, d);
    }
  }

  /** The owner has a row under the key, or none under the name that such a row takes. */
  ghost predicate HasRoom(db: Db, owner: int, key: string) {
    || (exists id :: id in db.agents && db.agents[id].owner == owner && db.agents[id].key == Some(key))
    || forall id | id in db.agents && db.agents[id].owner == owner :: db.agents[id].name != "system-" + key
  }

  lemma RoomIff(db: Db, owner: int, j: nat)
    requires j < 4
    ensures RoomFor(db, owner, KEYS[j]) <==> HasRoom(db, owner, KEY_TEXTS[j])
  {
    FoundRow(db, owner, KEYS[j]);
    KeyTexts(j);
    assert forall id | id in db.agents && db.agents[id].owner == owner && db.agents[id].key == Some(KEY_TEXTS[j]) ::
             OwnRow(owner, db, KEYS[j], id);
  }

  /**
   A call fails for want of a model exactly when no profile is the owner's and there is no usable
   default; it then changes no table. Otherwise it succeeds exactly when the owner is there and
   every key has its row or finds its name free.
   */
  lemma SucceedsIff(b: Build, owner: int, db: Db)
    requires DbInv(db)
    ensures var (after, end) := Run(b, owner, db, Start);
            && (end == Failed(NoModelProfile) <==> !DefaultExists(db) && forall id :: !OwnProfile(db, owner, id))
            && (end == Failed(NoModelProfile) ==> after == db)
            && (end.Failed? ==> end.error == NoModelProfile || end.error == DbError)
            && (end.Done? <==> && owner in db.owners
                               && (DefaultExists(db) || exists id :: OwnProfile(db, owner, id))
                               && forall j | 0 <= j < 4 :: HasRoom(db, owner, KEY_TEXTS[j]))
  {
    SucceedsByLookups(b, owner, db);
    UsableIff(db);
    FoundProfile(db, owner);
    forall j | 0 <= j < 4 ensures RoomFor(db, owner, KEYS[j]) <==> HasRoom(db, owner, KEY_TEXTS[j]) {
      RoomIff(db, owner, j);
    }
  }

  lemma SucceedsByLookups(b: Build, owner: int, db: Db)
    requires DbInv(db)
    ensures var (after, end) := Run(b, owner, db, Start);
            && (end == Failed(NoModelProfile) <==> FindProfile(db, owner).None? && !UsableDefault(db))
            && (end == Failed(NoModelProfile) ==> after == db)
            && (end.Failed? ==> end.error == NoModelProfile || end.error == DbError)
            && (end.Done? <==> && owner in db.owners
                               && (FindProfile(db, owner).Some? || UsableDefault(db))
                               && forall j | 0 <= j < 4 :: RoomFor(db, owner, KEYS[j]))
  {
    ProfileOrNone(b, owner, db);
    if FindProfile(db, owner).Some? {
      SucceedsFromKey(b, owner, db, 0, FindProfile(db, owner).value, []);
    } else if UsableDefault(db) {
      var d := ParseDefault(db.setting).value;
      var with := InsertProfile(db, DefaultProfile(owner, d));
      ProfileInserted(b, owner, db, d);
      if owner in db.owners {
        SucceedsFromKey(b, owner, with, 0, db.nextProfile, []);
        assert with.agents == db.agents;
        forall j | 0 <= j < 4 ensures RoomFor(with, owner, KEYS[j]) <==> RoomFor(db, owner, KEYS[j]) {
          assert RowsOf(with, owner, KEYS[j]) == RowsOf(db, owner, KEYS[j]);
        }
      }
    }
  }

  // ----- the bootstrap as it is written -----

  lemma Moves(b: Build, owner: int, db: Db, pc: Pc)
    requires PcOk(pc) && DbInv(db) && Consistent(b, owner, db, pc)
    ensures var next := CallStep(b, owner, db, pc);
            && DbInv(next.0) && Consistent(b, owner, next.0, next.1)
            && Run(b, owner, db, pc) == Run(b, owner, next.0, next.1)
  {
    StepIsConsistent(b, owner, db, pc);
    RunOfStep(b, owner, db, pc);
  }

  datatype Outcome<T> = Returned(value: T) | Refused(error: CallError)

  /** The tables, with the queries and statements that the bootstrap issues. */
  class Database {
    var agents: map<int, Row>
    var nextAgent: int
    var profiles: map<int, Profile>
    var nextProfile: int
    var setting: Option<Json>
    var providers: set<int>
    var owners: set<int>

    function Tables(): Db
      reads this
    {
      Db(agents, nextAgent, profiles, nextProfile, setting, providers, owners)
    }

    constructor (db: Db)
      ensures Tables() == db
    {
      agents, nextAgent, profiles, nextProfile := db.agents, db.nextAgent, db.profiles, db.nextProfile;
      setting, providers, owners := db.setting, db.providers, db.owners;
    }

    method InsertAgentRow(row: Row) returns (id: Option<int>)
      modifies this`agents, this`nextAgent
      ensures id == if CanInsertAgent(old(Tables()), row) then Some(old(nextAgent)) else None
      ensures Tables() == if id.Some? then InsertAgent(old(Tables()), row) else old(Tables())
    {
      if !CanInsertAgent(Tables(), row) {
        return None;
      }
      id := Some(nextAgent);
      agents, nextAgent := agents[nextAgent := row], nextAgent + 1;
    }

    /** `resolve_or_bootstrap_profile`. */
    method ResolveOrBootstrapProfile(b: Build, owner: int) returns (r: Outcome<int>)
      requires DbInv(Tables())
      modifies this`profiles, this`nextProfile
      ensures DbInv(Tables()) && agents == old(agents)
      ensures r.Returned? ==>
                && FindProfile(Tables(), owner) == Some(r.value)
                && Run(b, owner, Tables(), AtKey(0, r.value, [])) == Run(b, owner, old(Tables()), Start)
      ensures r.Returned? ==> IsFirstProfile(Tables(), owner, r.value)
      ensures r == Refused(NoModelProfile)
         <==> !DefaultExists(old(Tables())) && forall id :: !OwnProfile(old(Tables()), owner, id)
      ensures r.Refused? ==> Run(b, owner, old(Tables()), Start) == (Tables(), Failed(r.error))
    {
      ProfileOrNone(b, owner, Tables());
      FoundProfile(Tables(), owner);
      UsableIff(Tables());
      var first := FindProfile(Tables(), owner);
      if first.Some? {
        return Returned(first.value);
      }
      var parsed := ParseDefault(setting);
      if parsed.None? || parsed.value.provider !in providers {
        return Refused(NoModelProfile);
      }
      ProfileInserted(b, owner, Tables(), parsed.value);
      if !CanInsertProfile(Tables(), DefaultProfile(owner, parsed.value)) {
        return Refused(DbError);
      }
      var created := nextProfile;
      profiles, nextProfile := profiles[nextProfile := DefaultProfile(owner, parsed.value)], nextProfile + 1;
      FoundProfile(Tables(), owner);
      r := Returned(created);
    }

    /** One turn of the loop: the row of a key, inserted, rewritten or as it is. */
    method EnsureKey(b: Build, owner: int, i: nat, profile: int, ghost rows: seq<(int, Row)>)
      returns (r: Outcome<(int, Row)>)
      requires DbInv(Tables()) && SeenAt(b, owner, Tables(), i, profile, rows)
      modifies this`agents, this`nextAgent
      ensures r.Returned? ==>
                var next := if i < 3 then AtKey(i + 1, profile, rows + [r.value]) else Done(rows + [r.value]);
                && DbInv(Tables()) && Consistent(b, owner, Tables(), next)
                && Run(b, owner, old(Tables()), AtKey(i, profile, rows)) == Run(b, owner, Tables(), next)
      ensures r.Refused? ==> Run(b, owner, old(Tables()), AtKey(i, profile, rows)) == (Tables(), Failed(r.error))
    {
      Moves(b, owner, Tables(), AtKey(i, profile, rows));
      FoundRow(Tables(), owner, KEYS[i]);
      var existing := FindRow(Tables(), owner, KEYS[i]);
      var id: int;
      if existing.None? {
        Moves(b, owner, Tables(), Missing(i, profile, rows));
        var inserted := InsertAgentRow(NewRow(b, owner, KEYS[i], profile));
        if inserted.None? {
          return Refused(DbError);
        }
        id := inserted.value;
        Moves(b, owner, Tables(), Reread(i, profile, rows, id));
      } else {
        id := existing.value;
        if agents[id].version != Some(b.version) {
          Moves(b, owner, Tables(), Stale(i, profile, rows, id));
          agents := agents[id := Rewritten(b, KEYS[i], agents[id])];
          Moves(b, owner, Tables(), Reread(i, profile, rows, id));
        }
      }
      r := Returned((id, agents[id]));
    }

    /** `ensure_system_agents`. */
    method EnsureSystemAgents(b: Build, owner: int) returns (r: Outcome<seq<(int, Row)>>)
      requires DbInv(Tables())
      modifies this
      ensures (Tables(), match r case Returned(rows) => Done(rows) case Refused(e) => Failed(e))
              == Run(b, owner, old(Tables()), Start)
    {
      var resolved := ResolveOrBootstrapProfile(b, owner);
      if resolved.Refused? {
        return Refused(resolved.error);
      }
      var profile := resolved.value;
      var rows: seq<(int, Row)> := [];
      for i := 0 to 4
        invariant DbInv(Tables())
        invariant i < 4 ==> SeenAt(b, owner, Tables(), i, profile, rows)
        invariant Run(b, owner, old(Tables()), Start)
               == Run(b, owner, Tables(), if i < 4 then AtKey(i, profile, rows) else Done(rows))
      {
        var row := EnsureKey(b, owner, i, profile, rows);
        if row.Refused? {
          return Refused(row.error);
        }
        rows := rows + [row.value];
      }
      r := Returned(rows);
    }
  }
}
