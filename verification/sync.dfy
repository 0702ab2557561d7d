/** The reconciliation and apply phase of the program's main routine: the
    admin list, the create and drop lists, whether there is work, and the
    run over both lists that either prints SQL (dry run) or executes it
    inside one transaction with a savepoint per role.

    Database effects are not modelled: the success of each savepoint batch
    is read from an oracle, a sequence of booleans consumed one per batch
    in execution order (a batch past its end fails). */
module Sync {
  import opened Optional
  import opened Text
  import opened Lists
  import opened Settings
  import opened PgRoles
  import opened LdapUsers

  const DryRunBanner: seq<string> :=
    ["-- This is an LDAP sync dry run.",
     "-- The commands below can be manually executed if required."]
  const NoWorkMessage := "No login roles were added or dropped."

  // ---------------------------------------------------------------------
  // Reconciliation
  // ---------------------------------------------------------------------

  /** What the run works on: the roles to create and drop, and the admin
      users whose new roles are forced to be superusers. */
  datatype Plan = Plan(toCreate: seq<string>, toDrop: seq<string>, admins: seq<string>)

  /** The admin users: none unless both the admin base DN and the admin
      filter are set, otherwise the admin search's users with no ignore
      filtering applied. There is no list exactly when the admin search
      is issued and one of its entries lacks the user name attribute. */
  function AdminUsers(l: LdapSection, directory: Directory): (admins: Option<seq<string>>)
    ensures l.adminBaseDn == "" || l.adminFilterString == "" ==> admins == Some([])
    ensures var entries := directory(SearchRequest(l.adminBaseDn, l.adminFilterString,
                                                   l.searchScope, [l.usernameAttribute]));
            && (admins.Some? <==> l.adminBaseDn == "" || l.adminFilterString == ""
                                  || forall i :: 0 <= i < |entries| ==> l.usernameAttribute in entries[i])
            && (l.adminBaseDn != "" && l.adminFilterString != "" && admins.Some? ==>
                  && |admins.value| == |entries|
                  && forall i :: 0 <= i < |entries| ==> admins.value[i] == entries[i][l.usernameAttribute])
  {
    if l.adminBaseDn == "" || l.adminFilterString == "" then Some([])
    else Users(l, directory, true)
  }

  /** The filtered directory users and login roles, the admin list, and
      the create and drop lists computed from them; `None` exactly when an
      entry of the user search, or of the admin search when both admin
      settings are given, lacks the user name attribute. */
  function Reconcile(cfg: Config, directory: Directory, fetchedRoles: seq<string>): (plan: Option<Plan>)
    ensures plan.Some? <==> FilteredUsers(cfg.ldap, directory, false).Some? && AdminUsers(cfg.ldap, directory).Some?
    ensures var l := cfg.ldap;
            var users := directory(SearchRequest(l.baseDn, l.filterString, l.searchScope, [l.usernameAttribute]));
            var admins := directory(SearchRequest(l.adminBaseDn, l.adminFilterString, l.searchScope, [l.usernameAttribute]));
            plan.Some? <==>
              && (forall i :: 0 <= i < |users| ==> l.usernameAttribute in users[i])
              && (l.adminBaseDn == "" || l.adminFilterString == ""
                  || forall i :: 0 <= i < |admins| ==> l.usernameAttribute in admins[i])
    ensures plan.Some? ==>
              var users := FilteredUsers(cfg.ldap, directory, false).value;
              var roles := FilteredLoginRoles(cfg.postgres, fetchedRoles);
              && (forall u :: u in plan.value.toCreate <==> u in users && u !in roles)
              && (forall r :: r in plan.value.toDrop <==> r in roles && r !in users)
              && IsSubsequence(plan.value.toCreate, users)
              && IsSubsequence(plan.value.toDrop, roles)
              && plan.value.toCreate == CreateLoginRoles(users, roles)
              && plan.value.toDrop == DropLoginRoles(users, roles)
              && plan.value.admins == AdminUsers(cfg.ldap, directory).value
  {
    match FilteredUsers(cfg.ldap, directory, false)
    case None => None
    case Some(users) =>
      match AdminUsers(cfg.ldap, directory)
      case None => None
      case Some(admins) =>
        var roles := FilteredLoginRoles(cfg.postgres, fetchedRoles);
        Some(Plan(CreateLoginRoles(users, roles), DropLoginRoles(users, roles), admins))
  }

  /** There is work when creation is enabled and something is to be
      created, or removal is enabled and something is to be dropped. */
  function HaveWork(g: GeneralSection, plan: Plan): (work: bool)
    ensures work <==> Attempts(g, plan) > 0
  {
    (g.addLdapUsersToPostgres && |plan.toCreate| > 0)
    || (g.removeLoginRolesFromPostgres && |plan.toDrop| > 0)
  }

  /** How many role statements the run issues: one per role of each
      enabled list. */
  function Attempts(g: GeneralSection, plan: Plan): nat
  {
    (if g.addLdapUsersToPostgres then |plan.toCreate| else 0)
    + (if g.removeLoginRolesFromPostgres then |plan.toDrop| else 0)
  }

  // ---------------------------------------------------------------------
  // SQL for one role
  // ---------------------------------------------------------------------

  /** `role.replace("'", "\\'")`: the name as interpolated into SQL text.
      The text loses nothing: `Unescape` reads the name back, and it is one
      character longer per quote in the name. */
  function EscapeRoleName(role: string): (name: string)
    ensures Unescape(name, '\'', '\\') == role
    ensures |name| == |role| + multiset(role)['\'']
  {
    UnescapeEscape(role, '\'', '\\');
    EscapeLength(role, '\'', '\\');
    Escape(role, '\'', '\\')
  }

  /** `CREATE ROLE "<name>" LOGIN <attributes>;` for the escaped name. The
      attribute clause can be cut back out between the head and the `;`;
      it is the clause `get_role_attributes` builds and reads back as the
      requested attributes, with the superuser forced for an admin user. */
  function CreateRoleStatement(g: GeneralSection, name: string, admin: bool): (stmt: string)
    ensures var head := "CREATE ROLE \"" + name + "\" LOGIN ";
            && StartsWith(stmt, head) && EndsWith(stmt, ";") && |stmt| > |head|
            && ParseAttributes(stmt[|head|..|stmt| - 1]) == Some(RequestedAttributes(g, admin))
            && stmt[|head|..|stmt| - 1] == RoleAttributes(g, admin)
  {
    var head := "CREATE ROLE \"" + name + "\" LOGIN ";
    var clause := RoleAttributes(g, admin);
    Enclosed(head, clause, ";");
    head + clause + ";"
  }

  /** The four pieces printed for a new role: the `CREATE ROLE` statement,
      the plain grants, the admin-option grants and the GUC settings. The
      admin check uses the raw name; the SQL text uses the escaped one, so
      the `CREATE ROLE` statement names the escaped role, and its attribute
      clause reads back as the requested attributes, with the superuser
      forced when the raw name is an admin user. */
  function CreateParts(g: GeneralSection, admins: seq<string>, role: string): (parts: seq<string>)
    ensures |parts| == 4
    ensures var head := "CREATE ROLE \"" + EscapeRoleName(role) + "\" LOGIN ";
            var stmt := parts[0];
            && StartsWith(stmt, head) && EndsWith(stmt, ";") && |stmt| > |head|
            && ParseAttributes(stmt[|head|..|stmt| - 1]) == Some(RequestedAttributes(g, role in admins))
            && stmt[|head|..|stmt| - 1] == RoleAttributes(g, role in admins)
    ensures parts[1] == RoleGrants(g, EscapeRoleName(role), false)
    ensures parts[2] == RoleGrants(g, EscapeRoleName(role), true)
    ensures parts[3] == GucList(EscapeRoleName(role), g.gucsToSet)
  {
    var name := EscapeRoleName(role);
    var create := CreateRoleStatement(g, name, role in admins);
    var grants := RoleGrants(g, name, false);
    var adminGrants := RoleGrants(g, name, true);
    var gucs := GucList(name, g.gucsToSet);
    var parts := [create, grants, adminGrants, gucs];
    assert parts[0] == create && parts[1] == grants && parts[2] == adminGrants && parts[3] == gucs;
    parts
  }

  /** The middle of a concatenation of three can be cut back out. */
  lemma Enclosed(head: string, middle: string, tail: string)
    ensures var t := head + middle + tail;
            && StartsWith(t, head) && EndsWith(t, tail)
            && t[|head|..|t| - |tail|] == middle
  {
    var t := head + middle + tail;
    assert t[..|head|] == head;
    assert t[|t| - |tail|..] == tail;
    assert t[|head|..|t| - |tail|] == middle;
  }

  /** `DROP ROLE "<name>";` with the escaped name between the quotes, from
      which the raw name reads back. */
  function DropStatement(role: string): (stmt: string)
    ensures var head := "DROP ROLE \"";
            && StartsWith(stmt, head) && EndsWith(stmt, "\";") && |stmt| >= |head| + 2
            && stmt[|head|..|stmt| - 2] == EscapeRoleName(role)
            && Unescape(stmt[|head|..|stmt| - 2], '\'', '\\') == role
  {
    var name := EscapeRoleName(role);
    Enclosed("DROP ROLE \"", name, "\";");
    "DROP ROLE \"" + name + "\";"
  }

  // ---------------------------------------------------------------------
  // The statements a live run executes
  // ---------------------------------------------------------------------

  /** The create loop and the drop loop have the same shape; they differ
      in their savepoint and in the counters they keep. */
  datatype Loop = CreateLoop | DropLoop
  {
    function SavepointName(): string
    {
      if this == CreateLoop then "cr" else "dr"
    }

    /** The counters after one more success (`ok`) or one more error. */
    function Tally(c: Counters, ok: bool): Counters
    {
      match (this, ok)
      case (CreateLoop, true) => c.(added := c.added + 1)
      case (CreateLoop, false) => c.(addErrors := c.addErrors + 1)
      case (DropLoop, true) => c.(dropped := c.dropped + 1)
      case (DropLoop, false) => c.(dropErrors := c.dropErrors + 1)
    }

    /** One outcome and then `oks` successes and `errors` errors count as
        the outcome added to the right total. */
    lemma TallyThenMany(c: Counters, ok: bool, oks: nat, errors: nat)
      ensures TallyMany(Tally(c, ok), oks, errors)
              == TallyMany(c, oks + (if ok then 1 else 0), errors + (if ok then 0 else 1))
    {
    }

    /** The counters after `oks` successes and `errors` errors. */
    function TallyMany(c: Counters, oks: nat, errors: nat): Counters
    {
      if this == CreateLoop then c.(added := c.added + oks, addErrors := c.addErrors + errors)
      else c.(dropped := c.dropped + oks, dropErrors := c.dropErrors + errors)
    }
  }

  /** One call to the cursor's execute: opening or closing the
      transaction, one role's batch behind its loop's savepoint, or the
      rollback to that savepoint. */
  datatype Statement = Begin | Commit | Savepoint(loop: Loop, batch: string) | RollbackTo(loop: Loop)

  /** The SQL text the cursor receives for a statement. */
  function Sql(st: Statement): string
  {
    match st
    case Begin => "BEGIN;"
    case Commit => "COMMIT;"
    case Savepoint(loop, batch) => "SAVEPOINT " + loop.SavepointName() + "; " + batch
    case RollbackTo(loop) => "ROLLBACK TO SAVEPOINT " + loop.SavepointName() + ";"
  }

  /** Different statements are sent as different text, so the framing and
      the batch can be read back from what the cursor received. */
  lemma SqlInjective(a: Statement, b: Statement)
    requires Sql(a) == Sql(b)
    ensures a == b
  {
    var t := Sql(a);
    assert t[0] == Sql(b)[0];
    match a {
      case Begin =>
      case Commit =>
      case Savepoint(la, ba) =>
        assert t[10] == (if la == CreateLoop then 'c' else 'd');
        if b.Savepoint? {
          assert Sql(b)[10] == (if b.loop == CreateLoop then 'c' else 'd');
          assert t[14..] == ba;
          assert Sql(b)[14..] == b.batch;
        }
      case RollbackTo(la) =>
        assert t[22] == (if la == CreateLoop then 'c' else 'd');
        if b.RollbackTo? {
          assert Sql(b)[22] == (if b.loop == CreateLoop then 'c' else 'd');
        }
    }
  }

  /** A statement of the loop's savepoint frame. */
  predicate InFrame(loop: Loop, st: Statement)
  {
    (st.Savepoint? || st.RollbackTo?) && st.loop == loop
  }

  /** What a live run executes for one role: the batch behind its
      savepoint, followed by the rollback when the batch failed. */
  function Framed(loop: Loop, batch: string, ok: bool): seq<Statement>
  {
    [Savepoint(loop, batch)] + (if ok then [] else [RollbackTo(loop)])
  }

  /** The number of `ROLLBACK TO SAVEPOINT` statements in a log. */
  function Rollbacks(log: seq<Statement>): nat
  {
    if |log| == 0 then 0 else (if log[0].RollbackTo? then 1 else 0) + Rollbacks(log[1..])
  }

  lemma {:induction false} RollbacksAppend(a: seq<Statement>, b: seq<Statement>)
    ensures Rollbacks(a + b) == Rollbacks(a) + Rollbacks(b)
    decreases |a|
  {
    if |a| > 0 {
      RollbacksAppend(a[1..], b);
      assert (a + b)[1..] == a[1..] + b;
    } else {
      assert a + b == b;
    }
  }

  /** Every rollback in the log comes right after a savepoint of its own
      loop, so nothing is rolled back but the batch just sent. */
  predicate AfterSavepoint(log: seq<Statement>)
  {
    forall i :: 0 <= i < |log| && log[i].RollbackTo? ==>
      0 < i && log[i - 1].Savepoint? && log[i - 1].loop == log[i].loop
  }

  lemma AfterSavepointAppend(a: seq<Statement>, b: seq<Statement>)
    requires AfterSavepoint(a) && AfterSavepoint(b)
    ensures AfterSavepoint(a + b)
  {
    forall i | 0 <= i < |a + b| && (a + b)[i].RollbackTo?
      ensures 0 < i && (a + b)[i - 1].Savepoint? && (a + b)[i - 1].loop == (a + b)[i].loop
    {
      if i < |a| {
        assert (a + b)[i] == a[i];
        assert (a + b)[i - 1] == a[i - 1];
      } else {
        assert (a + b)[i] == b[i - |a|];
        assert (a + b)[i - 1] == b[i - |a| - 1];
      }
    }
  }

  /** The reference log of a live loop: for each batch in order its frame,
      with the rollback exactly when that batch's outcome, the next unused
      one, is a failure. */
  function Frames(loop: Loop, batches: seq<string>, oracle: seq<bool>): seq<Statement>
    decreases |batches|
  {
    if |batches| == 0 then []
    else Framed(loop, batches[0], |oracle| > 0 && oracle[0]) + Frames(loop, batches[1..], Advance(oracle))
  }

  /** A loop's frames roll back once per failed batch, and only right after
      that batch's savepoint. */
  lemma {:induction false} FramesRollbacks(loop: Loop, batches: seq<string>, oracle: seq<bool>)
    ensures var log := Frames(loop, batches, oracle);
            && Rollbacks(log) == |batches| - Successes(oracle, |batches|)
            && AfterSavepoint(log)
    decreases |batches|
  {
    if |batches| > 0 {
      var ok := |oracle| > 0 && oracle[0];
      var frame := Framed(loop, batches[0], ok);
      var rest := Frames(loop, batches[1..], Advance(oracle));
      FramesRollbacks(loop, batches[1..], Advance(oracle));
      RollbacksAppend(frame, rest);
      assert Rollbacks(frame) == if ok then 0 else 1 by {
        assert Rollbacks(frame[1..]) == if ok then 0 else 1 by {
          if !ok { assert frame[1..][1..] == []; }
        }
      }
      assert AfterSavepoint(frame) by {
        if !ok { assert frame == [Savepoint(loop, batches[0]), RollbackTo(loop)]; }
      }
      AfterSavepointAppend(frame, rest);
    }
  }

  /** The text the log sends with the savepoint framing taken out: the
      rollbacks dropped and each batch without its savepoint. */
  function Unframe(log: seq<Statement>): seq<string>
  {
    if |log| == 0 then []
    else
      var first :=
        match log[0]
        case Begin => ["BEGIN;"]
        case Commit => ["COMMIT;"]
        case Savepoint(_, batch) => [batch]
        case RollbackTo(_) => [];
      first + Unframe(log[1..])
  }

  lemma {:induction false} UnframeAppend(a: seq<Statement>, b: seq<Statement>)
    ensures Unframe(a + b) == Unframe(a) + Unframe(b)
    decreases |a|
  {
    if |a| > 0 {
      UnframeAppend(a[1..], b);
      assert (a + b)[1..] == a[1..] + b;
    } else {
      assert a + b == b;
    }
  }

  // ---------------------------------------------------------------------
  // The two loops over the lists
  // ---------------------------------------------------------------------

  datatype Counters = Counters(added: nat, dropped: nat, addErrors: nat, dropErrors: nat)

  /** The run's state: the lines printed so far, the cursor (`None` until
      the transaction is opened, then every statement executed on it), the
      outcomes still to come, and the counters. */
  datatype State = State(stdout: seq<string>, cur: Option<seq<Statement>>, oracle: seq<bool>, counters: Counters)

  /** The oracle after one batch has used its outcome. */
  function Advance(oracle: seq<bool>): seq<bool>
  {
    if |oracle| > 0 then oracle[1..] else []
  }

  /** The number of successes among the next `n` batches. */
  function Successes(oracle: seq<bool>, n: nat): (k: nat)
    ensures k <= n
  {
    if n == 0 then 0
    else (if |oracle| > 0 && oracle[0] then 1 else 0) + Successes(Advance(oracle), n - 1)
  }

  function Skip(oracle: seq<bool>, n: nat): seq<bool>
  {
    if n == 0 then oracle else Skip(Advance(oracle), n - 1)
  }

  /** The statements of each new role, one item of four per role. */
  function CreateItems(g: GeneralSection, admins: seq<string>, roles: seq<string>): (items: seq<seq<string>>)
    ensures |items| == |roles|
    ensures forall i :: 0 <= i < |roles| ==> items[i] == CreateParts(g, admins, roles[i])
  {
    seq(|roles|, i requires 0 <= i < |roles| => CreateParts(g, admins, roles[i]))
  }

  /** The statement of each dropped role, one item of one per role. */
  function DropItems(roles: seq<string>): (items: seq<seq<string>>)
    ensures |items| == |roles|
    ensures forall i :: 0 <= i < |roles| ==> items[i] == [DropStatement(roles[i])]
  {
    seq(|roles|, i requires 0 <= i < |roles| => [DropStatement(roles[i])])
  }

  /** All items' statements in order: what a dry run prints. */
  function Flatten(items: seq<seq<string>>): seq<string>
  {
    if |items| == 0 then [] else items[0] + Flatten(items[1..])
  }

  /** Each item's statements concatenated: what a live run sends per role. */
  function Batches(items: seq<seq<string>>): (batches: seq<string>)
    ensures |batches| == |items|
  {
    seq(|items|, i requires 0 <= i < |items| => Join(items[i], ""))
  }

  /** One role of a loop: printed in a dry run; in a live run executed as
      one batch behind a savepoint, rolled back to it when the oracle says
      the batch failed. A live run needs the open cursor. */
  function Step(loop: Loop, item: seq<string>, dryRun: bool, s: State): State
    requires dryRun || s.cur.Some?
  {
    if dryRun then s.(stdout := s.stdout + item)
    else
      var ok := |s.oracle| > 0 && s.oracle[0];
      State(s.stdout, Some(s.cur.value + Framed(loop, Join(item, ""), ok)),
            Advance(s.oracle), loop.Tally(s.counters, ok))
  }

  /** A whole loop: every role gets exactly one attempt, whatever happened
      to the ones before it. A live loop keeps the cursor open. */
  function Steps(loop: Loop, items: seq<seq<string>>, dryRun: bool, s: State): (r: State)
    requires dryRun || |items| == 0 || s.cur.Some?
    ensures !dryRun && s.cur.Some? ==> r.cur.Some?
    decreases |items|
  {
    if |items| == 0 then s
    else Steps(loop, items[1..], dryRun, Step(loop, items[0], dryRun, s))
  }

  /** A dry loop prints every item in order and changes nothing else. */
  lemma {:induction false} StepsDry(loop: Loop, items: seq<seq<string>>, s: State)
    ensures Steps(loop, items, true, s) == s.(stdout := s.stdout + Flatten(items))
    decreases |items|
  {
    if |items| == 0 {
      assert s.stdout + Flatten(items) == s.stdout;
    } else {
      var t := Step(loop, items[0], true, s);
      StepsDry(loop, items[1..], t);
      assert s.stdout + items[0] + Flatten(items[1..]) == s.stdout + Flatten(items);
    }
  }

  /** A live loop prints nothing, uses one outcome per role and counts
      each as a success or an error of this loop. */
  lemma {:induction false} StepsLive(loop: Loop, items: seq<seq<string>>, s: State)
    requires s.cur.Some?
    ensures var r := Steps(loop, items, false, s);
            var k := Successes(s.oracle, |items|);
            && r.stdout == s.stdout
            && r.oracle == Skip(s.oracle, |items|)
            && r.counters == loop.TallyMany(s.counters, k, |items| - k)
    decreases |items|
  {
    if |items| == 0 {
      assert loop.TallyMany(s.counters, 0, 0) == s.counters;
    } else {
      var t := Step(loop, items[0], false, s);
      StepsLive(loop, items[1..], t);
      var ok := |s.oracle| > 0 && s.oracle[0];
      var n := |items|;
      var k := Successes(Advance(s.oracle), n - 1);
      assert Successes(s.oracle, n) == (if ok then 1 else 0) + k;
      assert Skip(s.oracle, n) == Skip(Advance(s.oracle), n - 1);
      loop.TallyThenMany(s.counters, ok, k, n - 1 - k);
    }
  }

  /** A live loop only appends to the cursor's log, appends only
      statements of its own savepoint frame, and, framing aside, sends one
      batch per role in list order; what it appends is the loop's
      reference frames, so it rolls back once per failed role and only
      right after that role's savepoint. */
  lemma {:induction false} StepsLog(loop: Loop, items: seq<seq<string>>, s: State) returns (log: seq<Statement>)
    requires s.cur.Some?
    ensures Steps(loop, items, false, s).cur == Some(s.cur.value + log)
    ensures forall i :: 0 <= i < |log| ==> InFrame(loop, log[i])
    ensures Unframe(log) == Batches(items)
    ensures log == Frames(loop, Batches(items), s.oracle)
    ensures Rollbacks(log) == |items| - Successes(s.oracle, |items|) && AfterSavepoint(log)
    decreases |items|
  {
    if |items| == 0 {
      log := [];
      assert s.cur.value + log == s.cur.value;
    } else {
      var ok := |s.oracle| > 0 && s.oracle[0];
      var step := Framed(loop, Join(items[0], ""), ok);
      var t := Step(loop, items[0], false, s);
      var rest := StepsLog(loop, items[1..], t);
      StepsUnfold(loop, items, s);
      StepCursor(loop, items[0], s);
      log := step + rest;
      AppendAssociative(s.cur.value, step, rest);
      FramedThenRest(loop, items, ok, rest);
      FramesStep(loop, items, s.oracle);
    }
    FramesRollbacks(loop, Batches(items), s.oracle);
  }

  /** The inductive step of `StepsLog`: the first role's frame followed by
      the log of the remaining roles stays in the frame and sends every
      role's batch in order. */
  lemma FramedThenRest(loop: Loop, items: seq<seq<string>>, ok: bool, rest: seq<Statement>)
    requires |items| > 0
    requires forall i :: 0 <= i < |rest| ==> InFrame(loop, rest[i])
    requires Unframe(rest) == Batches(items[1..])
    ensures var log := Framed(loop, Join(items[0], ""), ok) + rest;
            && (forall i :: 0 <= i < |log| ==> InFrame(loop, log[i]))
            && Unframe(log) == Batches(items)
  {
    var batch := Join(items[0], "");
    var step := Framed(loop, batch, ok);
    FramedUnframe(loop, batch, ok);
    UnframeAppend(step, rest);
    assert Batches(items) == [batch] + Batches(items[1..]);
  }

  /** The reference frames of a list of roles are the first role's frame
      followed by the frames of the rest. */
  lemma FramesStep(loop: Loop, items: seq<seq<string>>, oracle: seq<bool>)
    requires |items| > 0
    ensures Frames(loop, Batches(items), oracle)
            == Framed(loop, Join(items[0], ""), |oracle| > 0 && oracle[0])
               + Frames(loop, Batches(items[1..]), Advance(oracle))
  {
    var batches := Batches(items);
    assert batches[0] == Join(items[0], "");
    assert batches[1..] == Batches(items[1..]);
  }

  /** A live step appends the role's frame to the cursor's log. */
  lemma StepCursor(loop: Loop, item: seq<string>, s: State)
    requires s.cur.Some?
    ensures Step(loop, item, false, s).cur
            == Some(s.cur.value + Framed(loop, Join(item, ""), |s.oracle| > 0 && s.oracle[0]))
  {
  }

  /** A live loop is the first role's step followed by the rest of the loop. */
  lemma StepsUnfold(loop: Loop, items: seq<seq<string>>, s: State)
    requires s.cur.Some? && |items| > 0
    ensures Steps(loop, items, false, s) == Steps(loop, items[1..], false, Step(loop, items[0], false, s))
  {
  }

  /** One role's frame sends its batch and nothing else, and stays in the
      loop's savepoint frame. */
  lemma FramedUnframe(loop: Loop, batch: string, ok: bool)
    ensures Unframe(Framed(loop, batch, ok)) == [batch]
    ensures forall i :: 0 <= i < |Framed(loop, batch, ok)| ==> InFrame(loop, Framed(loop, batch, ok)[i])
  {
    assert Unframe([Savepoint(loop, batch)]) == [batch];
    if !ok {
      assert Unframe([RollbackTo(loop)]) == [];
      UnframeAppend([Savepoint(loop, batch)], [RollbackTo(loop)]);
    }
  }

  // ---------------------------------------------------------------------
  // The whole apply phase
  // ---------------------------------------------------------------------

  /** What a run leaves behind: the printed lines (one per print call), the
      statements executed on the cursor, and the counters. */
  datatype Report = Report(stdout: seq<string>, executed: seq<Statement>, counters: Counters)

  /** The summary of a live run with work; an error line only when its
      counter is positive. */
  function Summary(c: Counters): seq<string>
  {
    ["Login roles added to Postgres:     " + NatToString(c.added),
     "Login roles dropped from Postgres: " + NatToString(c.dropped)]
    + (if c.addErrors > 0 then ["Errors adding login roles:         " + NatToString(c.addErrors)] else [])
    + (if c.dropErrors > 0 then ["Errors dropping login roles:       " + NatToString(c.dropErrors)] else [])
  }

  /** The per-role statements of the enabled loops: the create items when
      creation is enabled, the drop items when removal is enabled. */
  datatype Work = Work(creates: seq<seq<string>>, drops: seq<seq<string>>)
  {
    predicate Pending()
    {
      |creates| > 0 || |drops| > 0
    }

    /** Every role's statements, creations first. */
    function Items(): seq<seq<string>>
    {
      creates + drops
    }
  }

  /** The work of a plan; there is some exactly when there is work. */
  function PlannedWork(g: GeneralSection, plan: Plan): (w: Work)
    ensures w.Pending() <==> HaveWork(g, plan)
    ensures |w.creates| + |w.drops| == Attempts(g, plan)
    ensures |w.creates| == if g.addLdapUsersToPostgres then |plan.toCreate| else 0
    ensures |w.drops| == if g.removeLoginRolesFromPostgres then |plan.toDrop| else 0
    ensures forall i :: 0 <= i < |w.creates| ==> w.creates[i] == CreateParts(g, plan.admins, plan.toCreate[i])
    ensures forall i :: 0 <= i < |w.drops| ==> w.drops[i] == [DropStatement(plan.toDrop[i])]
  {
    var creates := if g.addLdapUsersToPostgres then CreateItems(g, plan.admins, plan.toCreate) else [];
    var drops := if g.removeLoginRolesFromPostgres then DropItems(plan.toDrop) else [];
    Work(creates, drops)
  }

  /** The start of the run: the banner in a dry run, then `BEGIN;` when
      there is work, printed in a dry run and executed on a new cursor in
      a live one. */
  function Open(work: bool, dryRun: bool, oracle: seq<bool>): State
  {
    var s := State(if dryRun then DryRunBanner else [], None, oracle, Counters(0, 0, 0, 0));
    if !work then s
    else if dryRun then s.(stdout := s.stdout + [Sql(Begin)])
    else s.(cur := Some([Begin]))
  }

  /** The create loop, then the drop loop. A live run with work needs the
      open cursor. */
  function Loops(w: Work, dryRun: bool, s: State): State
    requires dryRun || !w.Pending() || s.cur.Some?
  {
    Steps(DropLoop, w.drops, dryRun, Steps(CreateLoop, w.creates, dryRun, s))
  }

  /** The end of the run: the no-work message when there was no work;
      otherwise `COMMIT;`, printed in a dry run, and in a live run executed
      and followed by the summary. */
  function Close(work: bool, dryRun: bool, s: State): Report
    requires dryRun || !work || s.cur.Some?
  {
    var executed := if s.cur.Some? then s.cur.value else [];
    if !work then Report(s.stdout + [NoWorkMessage], executed, s.counters)
    else if dryRun then Report(s.stdout + [Sql(Commit)], executed, s.counters)
    else Report(s.stdout + Summary(s.counters), executed + [Commit], s.counters)
  }

  /** Opening, both loops, closing. */
  function Execute(w: Work, dryRun: bool, oracle: seq<bool>): Report
  {
    Close(w.Pending(), dryRun, Loops(w, dryRun, Open(w.Pending(), dryRun, oracle)))
  }
}
