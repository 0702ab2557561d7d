/** The Postgres role functions: ignore filtering of the fetched login
    roles, the SQL fragments used when creating a role, and the create and
    drop lists of the reconciliation. */
module PgRoles {
  import opened Optional
  import opened Text
  import opened Lists
  import opened Settings

  // ---------------------------------------------------------------------
  // Ignore filtering
  // ---------------------------------------------------------------------

  /** The fetched login roles less one copy of each comma-separated piece
      of `ignore_login_roles`, matched exactly, order kept. */
  function FilteredLoginRoles(pg: PostgresSection, fetched: seq<string>): (roles: seq<string>)
    ensures multiset(roles) == multiset(fetched) - multiset(Split(pg.ignoreLoginRoles, ','))
    ensures IsSubsequence(roles, fetched)
    ensures |fetched| - |Split(pg.ignoreLoginRoles, ',')| <= |roles| <= |fetched|
  {
    RemoveEach(fetched, Split(pg.ignoreLoginRoles, ','))
  }

  // ---------------------------------------------------------------------
  // Role attributes
  // ---------------------------------------------------------------------

  /** What a `CREATE ROLE` attribute clause asks for; `connectionLimit` is
      `None` when the clause leaves the engine's default. */
  datatype RoleAttributeSet = RoleAttributeSet(
    superuser: bool,
    createdb: bool,
    createrole: bool,
    noinherit: bool,
    bypassrls: bool,
    connectionLimit: Option<int>)

  /** The attributes a new role should get: the configured flags, superuser
      forced on for an admin user, and the `-1` sentinel read as "no limit". */
  function RequestedAttributes(g: GeneralSection, admin: bool): RoleAttributeSet
  {
    RoleAttributeSet(
      g.superuser || admin, g.createdb, g.createrole, g.noinherit, g.bypassrls,
      if g.connectionLimit == -1 then None else Some(g.connectionLimit))
  }

  /** The attribute clause, built token by token as `get_role_attributes`
      does: five keywords in fixed order, then ` CONNECTION LIMIT n` unless
      the limit is `-1`. The clause is its tokens joined by single spaces,
      and reading it back gives exactly the requested attributes. */
  function RoleAttributes(g: GeneralSection, admin: bool): (clause: string)
    ensures clause == Join(AttributeTokens(g, admin), " ")
    ensures ParseAttributes(clause) == Some(RequestedAttributes(g, admin))
  {
    var superuser := Choose(g.superuser || admin, "SUPERUSER", "NOSUPERUSER");
    var createdb := Choose(g.createdb, "CREATEDB", "NOCREATEDB");
    var createrole := Choose(g.createrole, "CREATEROLE", "NOCREATEROLE");
    var inherit := Choose(g.noinherit, "NOINHERIT", "INHERIT");
    var bypassrls := Choose(g.bypassrls, "BYPASSRLS", "NOBYPASSRLS");
    var flags := superuser + " " + createdb + " " + createrole + " " + inherit + " " + bypassrls;
    var t := AttributeTokens(g, admin);
    FlagsJoin(superuser, createdb, createrole, inherit, bypassrls);
    SplitJoin(t, ' ');
    TokensRoundTrip(g, admin);
    if g.connectionLimit != -1 then
      LimitJoin([superuser, createdb, createrole, inherit, bypassrls], IntToString(g.connectionLimit));
      flags + " CONNECTION LIMIT " + IntToString(g.connectionLimit)
    else
      assert t == [superuser, createdb, createrole, inherit, bypassrls];
      flags
  }

  /** Five words appended with a space before each but the first are the
      five words joined by single spaces. */
  lemma FlagsJoin(w0: string, w1: string, w2: string, w3: string, w4: string)
    ensures w0 + " " + w1 + " " + w2 + " " + w3 + " " + w4 == Join([w0, w1, w2, w3, w4], " ")
  {
    var p2 := [w0] + [w1];
    JoinSnoc([w0], w1, " ");
    var p3 := p2 + [w2];
    JoinSnoc(p2, w2, " ");
    var p4 := p3 + [w3];
    JoinSnoc(p3, w3, " ");
    var p5 := p4 + [w4];
    JoinSnoc(p4, w4, " ");
    assert p5 == [w0, w1, w2, w3, w4];
  }

  /** Appending ` CONNECTION LIMIT n` to joined words joins three more words. */
  lemma LimitJoin(words: seq<string>, n: string)
    requires |words| > 0
    ensures Join(words, " ") + " CONNECTION LIMIT " + n == Join(words + ["CONNECTION", "LIMIT", n], " ")
  {
    var p6 := words + ["CONNECTION"];
    JoinSnoc(words, "CONNECTION", " ");
    var p7 := p6 + ["LIMIT"];
    JoinSnoc(p6, "LIMIT", " ");
    var p8 := p7 + [n];
    JoinSnoc(p7, n, " ");
    assert p8 == words + ["CONNECTION", "LIMIT", n];
    LimitKeywords(Join(words, " "));
  }

  /** One keyword of a pair, chosen by a flag. */
  function Choose(flag: bool, yes: string, no: string): string
  {
    if flag then yes else no
  }

  /** The space-separated words of the clause, limit words included. */
  function AttributeTokens(g: GeneralSection, admin: bool): (t: seq<string>)
    ensures |t| == if g.connectionLimit != -1 then 8 else 5
    ensures forall i :: 0 <= i < |t| ==> ' ' !in t[i]
  {
    [Choose(g.superuser || admin, "SUPERUSER", "NOSUPERUSER"),
     Choose(g.createdb, "CREATEDB", "NOCREATEDB"),
     Choose(g.createrole, "CREATEROLE", "NOCREATEROLE"),
     Choose(g.noinherit, "NOINHERIT", "INHERIT"),
     Choose(g.bypassrls, "BYPASSRLS", "NOBYPASSRLS")]
    + (if g.connectionLimit != -1 then ["CONNECTION", "LIMIT", IntToString(g.connectionLimit)] else [])
  }

  lemma LimitKeywords(flags: string)
    ensures flags + " CONNECTION LIMIT " == flags + " " + "CONNECTION" + " " + "LIMIT" + " "
  {
    assert " CONNECTION LIMIT " == " " + "CONNECTION" + " " + "LIMIT" + " ";
  }

  /** The tokens read back as the requested attributes. */
  lemma TokensRoundTrip(g: GeneralSection, admin: bool)
    ensures ParseTokens(AttributeTokens(g, admin)) == Some(RequestedAttributes(g, admin))
  {
    FlagsRoundTrip(g, admin);
    LimitRoundTrip(g, admin);
  }

  /** The five keywords read back as the flags, superuser forced for admins. */
  lemma FlagsRoundTrip(g: GeneralSection, admin: bool)
    ensures ParseFlags(AttributeTokens(g, admin))
            == Some((g.superuser || admin, g.createdb, g.createrole, g.noinherit, g.bypassrls))
  {
    KeywordChoose(g.superuser || admin, "SUPERUSER", "NOSUPERUSER");
    KeywordChoose(g.createdb, "CREATEDB", "NOCREATEDB");
    KeywordChoose(g.createrole, "CREATEROLE", "NOCREATEROLE");
    KeywordChoose(g.noinherit, "NOINHERIT", "INHERIT");
    KeywordChoose(g.bypassrls, "BYPASSRLS", "NOBYPASSRLS");
  }

  /** The words after the flags read back as the limit; `-1` as none. */
  lemma LimitRoundTrip(g: GeneralSection, admin: bool)
    ensures ParseLimit(AttributeTokens(g, admin))
            == if g.connectionLimit == -1 then Some(None) else Some(Some(g.connectionLimit))
  {
    if g.connectionLimit != -1 {
      IntToStringParse(g.connectionLimit);
    }
  }

  /** A keyword chosen by a flag reads back as that flag. */
  lemma KeywordChoose(flag: bool, yes: string, no: string)
    requires |yes| != |no|
    ensures Keyword(Choose(flag, yes, no), yes, no) == Some(flag)
  {
  }

  /** Reads an attribute clause back into what it asks for: five or eight
      space-separated tokens, each flag keyword in its own position. */
  function ParseAttributes(clause: string): Option<RoleAttributeSet>
  {
    ParseTokens(Split(clause, ' '))
  }

  /** Five or eight tokens: the five flag keywords, then optionally the
      connection limit. */
  function ParseTokens(t: seq<string>): Option<RoleAttributeSet>
  {
    match (ParseFlags(t), ParseLimit(t))
    case (Some(f), Some(limit)) => Some(RoleAttributeSet(f.0, f.1, f.2, f.3, f.4, limit))
    case _ => None
  }

  /** The five flag keywords, each in its own position. */
  function ParseFlags(t: seq<string>): Option<(bool, bool, bool, bool, bool)>
  {
    if |t| < 5 then None
    else
      var superuser := Keyword(t[0], "SUPERUSER", "NOSUPERUSER");
      var createdb := Keyword(t[1], "CREATEDB", "NOCREATEDB");
      var createrole := Keyword(t[2], "CREATEROLE", "NOCREATEROLE");
      var noinherit := Keyword(t[3], "NOINHERIT", "INHERIT");
      var bypassrls := Keyword(t[4], "BYPASSRLS", "NOBYPASSRLS");
      if superuser.Some? && createdb.Some? && createrole.Some? && noinherit.Some? && bypassrls.Some?
      then Some((superuser.value, createdb.value, createrole.value, noinherit.value, bypassrls.value))
      else None
  }

  /** Nothing after the flags, or `CONNECTION LIMIT n`. */
  function ParseLimit(t: seq<string>): Option<Option<int>>
  {
    if |t| == 5 then Some(None)
    else if |t| == 8 && t[5] == "CONNECTION" && t[6] == "LIMIT" then
      match ParseInt(t[7])
      case Some(n) => Some(Some(n))
      case None => None
    else None
  }

  function Keyword(token: string, on: string, off: string): Option<bool>
  {
    if token == on then Some(true) else if token == off then Some(false) else None
  }

  // ---------------------------------------------------------------------
  // Grants
  // ---------------------------------------------------------------------

  /** The setting a grant statement draws on. */
  function GrantSetting(g: GeneralSection, withAdmin: bool): string
  {
    if withAdmin then g.rolesToGrantWithAdmin else g.rolesToGrant
  }

  function QuotedNames(names: seq<string>): (quoted: seq<string>)
    ensures |quoted| == |names|
  {
    seq(|names|, i requires 0 <= i < |names| => "\"" + names[i] + "\"")
  }

  /** The grant loop's accumulator: each name double-quoted and followed by `, `. */
  function QuotedList(names: seq<string>): string
  {
    if |names| == 0 then "" else "\"" + names[0] + "\", " + QuotedList(names[1..])
  }

  lemma {:induction false} QuotedListJoin(names: seq<string>)
    requires |names| >= 1
    ensures QuotedList(names) == Join(QuotedNames(names), ", ") + ", "
    decreases |names|
  {
    if |names| > 1 {
      QuotedListJoin(names[1..]);
      assert QuotedNames(names) == [QuotedNames(names)[0]] + QuotedNames(names[1..]);
      JoinCons(QuotedNames(names)[0], QuotedNames(names[1..]), ", ");
    }
  }

  /** The GRANT statement for a new role: every comma-separated piece of the
      setting, double-quoted and comma-joined in order, then the grantee,
      then ` WITH ADMIN OPTION` for the admin list. Since splitting always
      yields a piece, the statement is never empty, even for an empty
      setting. */
  function RoleGrants(g: GeneralSection, role: string, withAdmin: bool): (sql: string)
    ensures sql == "GRANT " + Join(QuotedNames(Split(GrantSetting(g, withAdmin), ',')), ", ")
                   + " TO \"" + role + "\""
                   + (if withAdmin then " WITH ADMIN OPTION" else "") + ";"
  {
    var names := Split(GrantSetting(g, withAdmin), ',');
    var listed := QuotedList(names);
    QuotedListJoin(names);
    var roles := if EndsWith(listed, ", ") then listed[..|listed| - 2] else listed;
    assert roles == Join(QuotedNames(names), ", ");
    if roles != "" then
      "GRANT " + roles + " TO \"" + role + "\"" + (if withAdmin then " WITH ADMIN OPTION" else "") + ";"
    else
      // unreachable: the split yields at least one piece, so `roles` is never empty
      assert false;
      ""
  }

  /** An empty grant setting still splits into one (empty) piece, so the
      statement grants the role named by the empty string. */
  lemma EmptyGrantSetting(g: GeneralSection, role: string, withAdmin: bool)
    requires GrantSetting(g, withAdmin) == ""
    ensures RoleGrants(g, role, withAdmin)
            == "GRANT \"\" TO \"" + role + "\"" + (if withAdmin then " WITH ADMIN OPTION" else "") + ";"
  {
    SplitWithoutSeparator("", ',');
    assert QuotedNames([""])[0] == "\"\"";
  }

  // ---------------------------------------------------------------------
  // GUC settings
  // ---------------------------------------------------------------------

  /** One `ALTER ROLE` statement, as `get_guc_list` formats it: the role,
      the database scope when one is named, the setting. It names the role,
      uses the `IN DATABASE` form exactly when the entry names a database,
      names the database and the variable before ` TO `, and ends with the
      value as a quote-doubled literal and a `;`, which is not white
      space. */
  function GucStatement(role: string, guc: Guc): (stmt: string)
    ensures StartsWith(stmt, RoleClause(role))
    ensures guc.database != "" <==> StartsWith(stmt, RoleClause(role) + " IN DATABASE ")
    ensures EndsWith(stmt, " TO " + QuoteLiteral(guc.value) + ";")
    ensures var setting := RoleClause(role) + Scope(guc.database) + " SET " + guc.name + " TO ";
            && StartsWith(stmt, setting)
            && |stmt| == |setting| + |QuoteLiteral(guc.value)| + 1
    ensures |stmt| > 0 && stmt[|stmt| - 1] == ';' && !IsSpace(stmt[|stmt| - 1])
  {
    var stmt := RoleClause(role) + Scope(guc.database) + SetClause(guc.name, guc.value);
    ClausesRole(role, guc);
    ClausesSetting(role, guc);
    ClausesValue(role, guc);
    ClausesScope(role, guc);
    EndsWithLastChar(stmt, " TO " + QuoteLiteral(guc.value) + ";");
    stmt
  }

  function RoleClause(role: string): string
  {
    "ALTER ROLE \"" + role + "\""
  }

  /** The database scope: ` IN DATABASE "<db>"`, or nothing for all databases. */
  function Scope(db: string): string
  {
    if db != "" then " IN DATABASE \"" + db + "\"" else ""
  }

  /** The setting, its value a quote-doubled literal. */
  function SetClause(name: string, value: string): string
  {
    " SET " + name + (" TO " + QuoteLiteral(value) + ";")
  }

  lemma ClausesRole(role: string, guc: Guc)
    ensures StartsWith(RoleClause(role) + Scope(guc.database) + SetClause(guc.name, guc.value), RoleClause(role))
  {
    var scope := Scope(guc.database);
    var setting := SetClause(guc.name, guc.value);
    assert RoleClause(role) + scope + setting == RoleClause(role) + (scope + setting);
    PrefixOfAppend(RoleClause(role), scope + setting);
  }

  /** Everything up to the value: the role, the scope, the variable. */
  lemma ClausesSetting(role: string, guc: Guc)
    ensures var setting := RoleClause(role) + Scope(guc.database) + " SET " + guc.name + " TO ";
            var stmt := RoleClause(role) + Scope(guc.database) + SetClause(guc.name, guc.value);
            && StartsWith(stmt, setting)
            && |stmt| == |setting| + |QuoteLiteral(guc.value)| + 1
  {
    var lit := QuoteLiteral(guc.value);
    var scoped := RoleClause(role) + Scope(guc.database);
    AppendAssociative(" TO ", lit, ";");
    AppendAssociative(scoped, " SET " + guc.name, " TO " + lit + ";");
    AppendAssociative(scoped, " SET ", guc.name);
    AppendAssociative(scoped + " SET " + guc.name, " TO ", lit + ";");
    PrefixOfAppend(scoped + " SET " + guc.name + " TO ", lit + ";");
  }

  lemma ClausesValue(role: string, guc: Guc)
    ensures EndsWith(RoleClause(role) + Scope(guc.database) + SetClause(guc.name, guc.value),
                     " TO " + QuoteLiteral(guc.value) + ";")
  {
    var setting := SetClause(guc.name, guc.value);
    var value := " TO " + QuoteLiteral(guc.value) + ";";
    SuffixOfAppend(" SET " + guc.name, value);
    SuffixOfAppend(RoleClause(role) + Scope(guc.database), setting);
    SuffixTransitive(RoleClause(role) + Scope(guc.database) + setting, setting, value);
  }

  lemma ClausesScope(role: string, guc: Guc)
    ensures guc.database != "" <==> StartsWith(RoleClause(role) + Scope(guc.database) + SetClause(guc.name, guc.value),
                                               RoleClause(role) + " IN DATABASE ")
  {
    if guc.database != "" {
      ClausesInDatabase(role, guc);
    } else {
      ClausesAllDatabases(role, guc);
    }
  }

  lemma ClausesInDatabase(role: string, guc: Guc)
    requires guc.database != ""
    ensures StartsWith(RoleClause(role) + Scope(guc.database) + SetClause(guc.name, guc.value),
                       RoleClause(role) + " IN DATABASE ")
  {
    ScopeKeyword(guc.database);
    PrefixInside(RoleClause(role), Scope(guc.database), SetClause(guc.name, guc.value), " IN DATABASE ");
  }

  lemma ClausesAllDatabases(role: string, guc: Guc)
    requires guc.database == ""
    ensures !StartsWith(RoleClause(role) + Scope(guc.database) + SetClause(guc.name, guc.value),
                        RoleClause(role) + " IN DATABASE ")
  {
    var head := RoleClause(role);
    var setting := SetClause(guc.name, guc.value);
    SetClauseKeyword(guc.name, guc.value);
    assert head + Scope(guc.database) + setting == head + setting;
    assert (head + setting)[|head| + 1] == 'S';
    assert (head + " IN DATABASE ")[|head| + 1] == 'I';
  }

  lemma ScopeKeyword(db: string)
    requires db != ""
    ensures StartsWith(Scope(db), " IN DATABASE ")
  {
    assert Scope(db)[..13] == " IN DATABASE ";
  }

  lemma SetClauseKeyword(name: string, value: string)
    ensures |SetClause(name, value)| > 1 && SetClause(name, value)[1] == 'S'
  {
  }

  function GucStatements(role: string, gucs: seq<Guc>): (stmts: seq<string>)
    ensures |stmts| == |gucs|
  {
    seq(|gucs|, i requires 0 <= i < |gucs| => GucStatement(role, gucs[i]))
  }

  /** The GUC settings for a new role: one statement per entry, in entry
      order, separated by newlines with none after the last, and `""` when
      nothing is configured. `get_guc_list` strips trailing white space
      from the newline-terminated statements; that removes exactly the final newline because every statement
      ends in `;`. */
  function GucList(role: string, gucs: seq<Guc>): (sql: string)
    ensures sql == Join(GucStatements(role, gucs), "\n")
    ensures |gucs| == 0 ==> sql == ""
  {
    var stmts := GucStatements(role, gucs);
    if |gucs| == 0 then
      RStrip(Lines(stmts))
    else
      StripLines(stmts);
      RStrip(Lines(stmts))
  }

  // ---------------------------------------------------------------------
  // Reconciliation
  // ---------------------------------------------------------------------

  /** Roles to create: the directory users absent from Postgres, in
      directory order, duplicates kept. Every directory user is either
      already a role or in this list, and nothing in it is a role. */
  function CreateLoginRoles(ldapUsers: seq<string>, pgRoles: seq<string>): (roles: seq<string>)
    ensures forall u :: u in roles <==> u in ldapUsers && u !in pgRoles
    ensures forall u :: multiset(roles)[u] == if u in pgRoles then 0 else multiset(ldapUsers)[u]
    ensures IsSubsequence(roles, ldapUsers)
  {
    Without(ldapUsers, pgRoles)
  }

  /** Roles to drop: the Postgres roles absent from the directory, in
      Postgres order, duplicates kept. */
  function DropLoginRoles(ldapUsers: seq<string>, pgRoles: seq<string>): (roles: seq<string>)
    ensures forall r :: r in roles <==> r in pgRoles && r !in ldapUsers
    ensures forall r :: multiset(roles)[r] == if r in ldapUsers then 0 else multiset(pgRoles)[r]
    ensures IsSubsequence(roles, pgRoles)
  {
    Without(pgRoles, ldapUsers)
  }

  /** As sets, the create list and the users already present partition the
      directory users, and the drop list and the users present partition
      the roles. */
  lemma ReconcileSets(ldapUsers: seq<string>, pgRoles: seq<string>)
    ensures var a := set u | u in ldapUsers;
            var b := set r | r in pgRoles;
            var toCreate := set u | u in CreateLoginRoles(ldapUsers, pgRoles);
            var toDrop := set r | r in DropLoginRoles(ldapUsers, pgRoles);
            && toCreate * b == {} && toDrop * a == {}
            && toCreate + a * b == a && toDrop + a * b == b
  {
  }
}
