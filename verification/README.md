# pgldapsync reconciliation core in Dafny

pgldapsync keeps the PostgreSQL login roles in step with the users of an
LDAP directory. The core of one run is modelled here:

- reading the user names out of the directory search results;
- removing the configured ignored users and ignored login roles;
- computing the roles to create and to drop;
- building the SQL for each new role: the attribute clause, the two GRANT
  statements and the GUC settings;
- the apply phase of `main`. It prints the statements in a dry run. In a
  live run it executes them inside one transaction, with a savepoint per
  role, and keeps four counters.

Modules, one per file:

- `Optional`: the `Option` type.
- `Text`: the Python string operations the program relies on:
  - `str.split` on one character and `str.join`;
  - `str.replace` of one character (role-name escaping and SQL
    string-literal quoting);
  - `str.rstrip()`;
  - `%d` / `str(int)`.

  Split, replace and `%d` each come with the inverse they are proved
  against: joining a split, unescaping, and parsing the decimal text, which
  accepts exactly the one spelling `str` writes. `rstrip()` is described by
  the ensures of `RStrip`.
- `Lists`: subsequences, `list.remove` with the missing-element error
  swallowed, the ignore loop over the comma-split pieces, and the
  order-preserving list difference of the create and drop lists.
- `Settings`: the configuration as a record. The GUC map is a sequence of
  (name, value, database) entries.
- `PgRoles` (`pgldapsync/pgutils/roles.py`): the ignore filtering of the
  fetched login roles, `get_role_attributes` and a parser that reads its
  output back, `get_role_grants`, `get_guc_list`, `get_create_login_roles`
  and `get_drop_login_roles`.
- `LdapUsers` (`pgldapsync/ldaputils/users.py`): the choice of search, the
  collection of user names in entry order, and the ignore filtering. The
  directory is a function from a search request to the entries it returns.
- `Sync` (`pgldapsync/__init__.py`, `main` lines 99-235): the admin list,
  reconciliation, `have_work`, and the SQL of each role. It also models the
  create and drop loops as folds over the lists, and the whole apply phase
  as opening, loops, and closing.
  - The cursor is a log of `Statement`s: `BEGIN;`, `COMMIT;`, a savepoint
    batch, or a rollback.
  - Whether each savepoint batch succeeds is read from an oracle: a
    `seq<bool>` consumed one entry per batch. A batch past the oracle's end
    fails.
- `SyncProperties`: lemmas about the apply phase as a whole:
  - the transaction shape and the counters of a live run;
  - what a dry run prints;
  - that a dry run prints the text a live run sends;
  - the messages.
- `Program`: the apply phase of a plan, and one run from the search
  results and fetched roles to the report.

Two behaviours of the code are easy to miss:

- An empty `roles_to_grant` (or `roles_to_grant_with_admin`) setting still
  yields the statement `GRANT "" TO "<role>";`. Splitting the empty string
  gives one empty piece, which is quoted as `""`, so the guard
  `roles != ''` always holds and the statement is emitted
  (`pgldapsync/pgutils/roles.py:128-146`, `PgRoles.EmptyGrantSetting`).
- A live run sends a new role's four pieces as one batch, concatenated
  with no separator between them (`pgldapsync/__init__.py:180-182`).

## Model

| member | source | states |
|---|---|---|
| Lists.RemoveFirst | pgldapsync/pgutils/roles.py:61-64 | `list.remove` with the error swallowed. The first equal element is deleted and everything before it stays in place. A missing element leaves the list unchanged. The result is the input multiset less one copy and a subsequence of the input |
| Lists.RemoveEach | pgldapsync/pgutils/roles.py:60-64 | The ignore loop. The result is the input multiset minus the pieces' multiset, it is a subsequence of the input, and it is at most one element per piece shorter |
| Lists.RemoveEachSingle | pgldapsync/pgutils/roles.py:61-64 | One piece of the ignore loop is one `list.remove`: the first copy of the piece is deleted, if there is one |
| Lists.RemoveEachAppend | pgldapsync/pgutils/roles.py:60-64 | The pieces are removed one after the other, in split order: removing `ps + qs` is removing `ps`, then `qs` from what is left |
| Lists.RemoveEachSnoc | pgldapsync/ldaputils/users.py:74-78 | Each iteration of the loop deletes the first copy of its piece from what the earlier iterations left |
| Lists.Without | pgldapsync/pgutils/roles.py:184-190 | The order-preserving difference. An element is kept iff it is not excluded, with its multiplicity unchanged, and the result is a subsequence of the input |
| Lists.RemoveEachDistinct | pgldapsync/ldaputils/users.py:73-78 | On a list without duplicates, the ignore loop is exactly the difference with the pieces |
| Text.Split | pgldapsync/pgutils/roles.py:60 | `str.split(',')` always yields at least one piece, and no piece holds the separator |
| Text.JoinSplit | pgldapsync/pgutils/roles.py:60 | Joining the pieces back with the separator gives the original setting |
| Text.SplitJoin | pgldapsync/pgutils/roles.py:60 | Splitting a join of separator-free pieces gives the pieces back |
| Text.UnescapeEscape | pgldapsync/__init__.py:156 | Role-name escaping is injective: the model's `Unescape` recovers the raw name from the escaped one |
| Text.EscapeLength | pgldapsync/__init__.py:156 | Escaping adds exactly one character per quote in the name |
| Text.EscapeGuardsEveryOccurrence | pgldapsync/__init__.py:156 | Every quote in an escaped name is preceded by the backslash |
| Text.QuoteLiteral | pgldapsync/pgutils/roles.py:164-169 | A GUC value with its quotes doubled, in single quotes, reads back as the value, and its length is the value's plus one per embedded quote plus the two enclosing quotes, so every embedded quote is doubled |
| Text.RStrip | pgldapsync/pgutils/roles.py:171 | `rstrip()` returns the longest prefix that does not end in white space, with only white space after it |
| Text.StripLines | pgldapsync/pgutils/roles.py:163-171 | Stripping the newline-terminated lines removes exactly the final newline when the last line does not end in white space |
| Text.IntToStringParse | pgldapsync/pgutils/roles.py:104-108 | `str(n)` of the connection limit reads back as `n` |
| Text.ParseIntCanonical | pgldapsync/pgutils/roles.py:104-108 | Any text the reader accepts is exactly `str` of the value it reads, so a padded `00` or a `-0` is rejected and each limit has one accepted spelling |
| Text.NatToStringCanonical | pgldapsync/__init__.py:226-233 | Digits without a leading zero are exactly the `%d` text of their value |
| Text.NatToString | pgldapsync/__init__.py:226-233 | `%d` of a counter is a non-empty run of digits without a leading zero |
| Text.NatToStringValue | pgldapsync/__init__.py:226-233 | The digits of `%d` have the counter's value |
| PgRoles.FilteredLoginRoles | pgldapsync/pgutils/roles.py:59-66 | The fetched roles less one copy of each comma-split piece of `ignore_login_roles`, matched exactly. The result is a subsequence whose length drops by at most the number of pieces. Which copy goes, the first, is stated by `Lists.RemoveEachSingle` and `Lists.RemoveEachSnoc` |
| PgRoles.AttributeTokens | pgldapsync/pgutils/roles.py:78-108 | There are five space-free tokens, or eight when the limit is not `-1` |
| PgRoles.RoleAttributes | pgldapsync/pgutils/roles.py:69-110 | The clause `get_role_attributes` accumulates is its tokens joined by single spaces, and parsing it back gives exactly the requested attributes: the five flags, superuser forced for an admin, and a connection limit iff the limit is not `-1` |
| PgRoles.FlagsRoundTrip | pgldapsync/pgutils/roles.py:79-102 | The five keywords, read back in their fixed positions, give the five flags. Superuser reads back as set iff the flag is set or the user is an admin |
| PgRoles.LimitRoundTrip | pgldapsync/pgutils/roles.py:104-108 | The words after the five keywords read back as no limit when the limit is `-1`. Otherwise they read back as `CONNECTION LIMIT` with the configured limit |
| PgRoles.QuotedListJoin | pgldapsync/pgutils/roles.py:134-135 | The loop's accumulator is the double-quoted names joined by `, `, plus one trailing `, ` |
| PgRoles.RoleGrants | pgldapsync/pgutils/roles.py:125-148 | The result is `GRANT`, then every comma-split piece of the setting, double-quoted and `, `-joined in order, then `TO "<role>"`, then ` WITH ADMIN OPTION` iff `with_admin`, then `;`. It is never empty |
| PgRoles.EmptyGrantSetting | pgldapsync/pgutils/roles.py:128-146 | An empty setting grants the role with the empty name |
| PgRoles.GucStatement | pgldapsync/pgutils/roles.py:163-169 | Each statement starts with `ALTER ROLE "<role>"`, then ` IN DATABASE "<database>"` exactly when the entry names a database, then ` SET <name> TO `, followed by the value as a quote-doubled literal and a final `;`. The `;` is not white space, so `rstrip` keeps it |
| PgRoles.GucList | pgldapsync/pgutils/roles.py:160-171 | The result is one statement per entry, in entry order, joined by newlines with none after the last. It is `""` when no GUC is configured |
| PgRoles.CreateLoginRoles | pgldapsync/pgutils/roles.py:174-190 | A user is to be created iff it is a directory user and not a login role. Duplicates keep their multiplicity, and directory order is kept |
| PgRoles.DropLoginRoles | pgldapsync/pgutils/roles.py:193-209 | A role is to be dropped iff it is a login role and not a directory user, in role order |
| PgRoles.ReconcileSets | pgldapsync/pgutils/roles.py:174-209 | The create list is disjoint from the roles and the drop list from the users. Each list together with the common names gives back its whole side |
| LdapUsers.UserNames | pgldapsync/ldaputils/users.py:52-55 | The user name attribute of every entry, in entry order. There is no result iff some entry lacks the attribute, which is assumed to end the run |
| LdapUsers.Users | pgldapsync/ldaputils/users.py:29-41 | The admin flag selects `admin_base_dn`/`admin_filter_string`, otherwise `base_dn`/`filter_string`, with the shared scope and attribute |
| LdapUsers.FilteredUsers | pgldapsync/ldaputils/users.py:69-80 | The users less one copy of each comma-split piece of `ignore_users`. The result is a subsequence whose length drops by at most the number of pieces. Which copy goes, the first, is stated by `Lists.RemoveEachSingle` and `Lists.RemoveEachSnoc` |
| LdapUsers.FilteredUsersDistinct | pgldapsync/ldaputils/users.py:73-78 | Without duplicates, no ignored name survives and filtering again changes nothing |
| LdapUsers.DuplicateSurvivesOneIgnore | pgldapsync/ldaputils/users.py:74-78 | With a duplicate, only one copy per piece is removed |
| LdapUsers.IgnorePiecesAreNotTrimmed | pgldapsync/ldaputils/users.py:74-76 | The pieces are not trimmed: `carol, bob` ignores `carol` but not `bob` |
| Sync.AdminUsers | pgldapsync/__init__.py:100-106 | The admin list is empty when either admin setting is empty. Otherwise it is the admin search's unfiltered users, entry by entry. There is no list iff the admin search is issued and one of its entries lacks the user name attribute |
| Sync.Reconcile | pgldapsync/__init__.py:95-120 | A plan exists iff every entry of the user search, and of the admin search when both admin settings are given, has the user name attribute. The create and drop lists are `get_create_login_roles` and `get_drop_login_roles` of the filtered users and the filtered roles, and the admins are the admin list |
| Sync.HaveWork | pgldapsync/__init__.py:123-128 | There is work iff at least one role statement is to be attempted |
| Sync.PlannedWork | pgldapsync/__init__.py:152-198 | There is work iff `have_work` holds. The create items are one per role to create when creation is enabled, none otherwise, each the role's four pieces; the drop items likewise, each the role's `DROP ROLE` statement |
| Sync.EscapeRoleName | pgldapsync/__init__.py:156 | The escaped name loses nothing: the model's `Unescape` reads the raw name back. It is one character longer per quote in the name |
| Sync.CreateRoleStatement | pgldapsync/__init__.py:166-167 | The statement is `CREATE ROLE "<name>" LOGIN `, the attribute clause and `;`. The clause cut back out is the one `get_role_attributes` builds, and it reads back as the requested attributes |
| Sync.CreateParts | pgldapsync/__init__.py:155-170 | A new role has four pieces, all built on the escaped name. The CREATE statement's clause is the one `get_role_attributes` builds for the raw name's admin flag (not the escaped name's), and it reads back as the requested attributes with superuser forced for an admin. The next pieces are the plain grants, the admin-option grants and the GUC list of the escaped name |
| Sync.DropStatement | pgldapsync/__init__.py:198-209 | The DROP statement is `DROP ROLE "`, the escaped role and `";`, and the raw name reads back from it |
| Sync.SqlInjective | pgldapsync/__init__.py:180-187 | Different executed statements are different SQL text |
| Sync.Steps | pgldapsync/__init__.py:155-214 | A live loop keeps the cursor open |
| Sync.StepsDry | pgldapsync/__init__.py:163-198 | A dry loop prints every role's statements in order and changes nothing else |
| Sync.StepsLive | pgldapsync/__init__.py:177-214 | A live loop prints nothing and uses one outcome per role. Each role counts as exactly one success or one error |
| Sync.StepsLog | pgldapsync/__init__.py:177-214 | A live loop only appends to the cursor's log, and only statements of its own savepoint frame. With the framing removed, it sends one batch per role in list order. What it appends is the loop's reference frames: a rollback after a role's savepoint exactly when that role's outcome fails. So it rolls back once per failed role, each time right after the failed savepoint |
| Sync.FramesRollbacks | pgldapsync/__init__.py:177-187 | The reference frames roll back once per failed batch, and each rollback comes right after a savepoint of the same loop |
| SyncProperties.LiveShape | pgldapsync/__init__.py:141-222 | A live run executes `BEGIN;`, the create frames, the drop frames and `COMMIT;` when there is work, and nothing otherwise. The create frames follow the first outcomes and the drop frames the ones after them. Each loop rolls back once per failed role, and every rollback follows the savepoint it undoes |
| SyncProperties.LiveTransaction | pgldapsync/__init__.py:141-222 | A live run executes statements iff there is work. `BEGIN;` comes first and `COMMIT;` last, with only savepoint frames between them and every create frame before every drop frame. With the framing removed, one batch is sent per role. The run rolls back exactly as many times as it counts errors, each time right after the failed batch's savepoint |
| SyncProperties.LiveRollbacks | pgldapsync/__init__.py:177-214 | The number of `ROLLBACK TO SAVEPOINT` statements a live run executes is its add errors plus its drop errors, and each follows a savepoint of its own loop |
| SyncProperties.LiveText | pgldapsync/__init__.py:141-222 | With the framing removed, a live run sends `BEGIN;`, the batches in plan order and `COMMIT;`, or nothing |
| SyncProperties.OutcomesDoNotChangeBatches | pgldapsync/__init__.py:177-214 | Whatever fails, the same batches are sent |
| SyncProperties.LiveCounters | pgldapsync/__init__.py:177-235 | The creations use the first outcomes and the drops the ones after them. Added plus add-errors equals the create-list length, and dropped plus drop-errors the drop-list length. The total is positive iff there is work. The summary is printed iff there is work, otherwise the no-work message |
| SyncProperties.CreateFailureIsolated | pgldapsync/__init__.py:177-187 | One creation failing costs only that role: one fewer added, one more error, the same drops and the same batches |
| SyncProperties.DryRunPrints | pgldapsync/__init__.py:136-220 | A dry run executes and counts nothing. It prints the banner, then `BEGIN;`, every planned statement in order and `COMMIT;`, or the no-work message |
| SyncProperties.DryRunMatchesLive | pgldapsync/__init__.py:163-209 | When there is work, the lines a dry run prints after its banner, concatenated without their line breaks, equal the text a live run sends, concatenated, with the savepoint framing removed, whatever the outcomes |
| SyncProperties.RunOutcome | pgldapsync/__init__.py:136-235 | A dry run executes and counts nothing. A live run counts each create item once as added or as an error, and each drop item likewise, and executes statements iff there is work. In both modes the last line is the no-work message iff there is no work |
| SyncProperties.NoWorkMessageIffIdle | pgldapsync/__init__.py:216-235 | In both modes, the last printed line is the no-work message iff there is no work |
| SyncProperties.SummaryLinesDiffer | pgldapsync/__init__.py:226-235 | No summary line reads as the no-work message |
| SyncProperties.SummaryReadsBack | pgldapsync/__init__.py:226-233 | There are two summary lines plus one per positive error counter. Each is a 35-character label followed by its counter in decimal |
| Program.Apply | pgldapsync/__init__.py:136-235 | A dry run executes and counts nothing. In a live run, added plus add errors is the create-list length when creation is enabled (0 otherwise), and dropped plus drop errors likewise for the drop list. Statements are executed iff there is work. The last line is the no-work message iff there is no work |
| Program.Run | pgldapsync/__init__.py:95-235 | A run produces a report iff reconciliation succeeds, which `Sync.Reconcile` states happens iff no entry of the searches lacks the user name attribute. A dry run executes and counts nothing. In a live run, added plus add errors is the create-list length when creation is enabled, and dropped plus drop errors the drop-list length when removal is enabled. The last line is the no-work message iff there is no work |

## Left out

- The LDAP connection (`pgldapsync/ldaputils/connection.py`), the Postgres
  connection (`pgldapsync/pgutils/connection.py`) and the role catalog
  query `get_pg_login_roles`. These are network I/O. The search results
  and the fetched roles are inputs.
- `conn.search` failures and their `sys.exit(1)` in `users.py`. A failing
  connection in `main` likewise. Only the missing-attribute failure while
  collecting user names is modelled, as `None`, under the assumption in
  the next line.
- LdapUsers.UserNames: an entry without the user name attribute is
  assumed to make `entry[username_attribute]` fail and end the run, which
  the model writes as `None`. What the ldap3 library returns for a
  requested attribute the server left out is not modelled. If it yields an
  empty value instead, the run goes on with that value as a user name,
  and the "iff" clauses of `Sync.AdminUsers`, `Sync.Reconcile` and
  `Program.Run` describe the assumption, not the library.
- Multi-valued LDAP attributes. An entry maps each attribute to one string
  value.
- `read_command_line` and `read_config`. The configuration is a record.
  The GUC map is a sequence of entries rather than the output of
  `ast.literal_eval`, so its key uniqueness and iteration order are
  whatever the sequence gives.
- `pgldapsync/config.py`, `setup.py` and `pgldapsync.py`: legacy constants,
  packaging and the command-line runner.
- What the SQL does to the database. Each savepoint batch's success comes
  from the oracle. `BEGIN;`, `COMMIT;` and `ROLLBACK TO SAVEPOINT` are
  assumed to succeed, and `cur.close()` is not modelled.
- The stderr diagnostics of failed statements.
- Sync.Steps: its contract states only that the cursor stays open. What a
  loop prints, counts and sends is stated by `Sync.StepsDry`,
  `Sync.StepsLive` and `Sync.StepsLog`.
- Lists.RemoveEach: its contract describes the result by multiset,
  subsequence and length. Which copy each piece removes is stated by
  `Lists.RemoveEachSingle`, `Lists.RemoveEachAppend` and
  `Lists.RemoveEachSnoc`, not by its own contract.
- PgRoles.FilteredLoginRoles: its own contract does not say which copy of
  a piece goes. It is `Lists.RemoveEach` of the split pieces, whose lemmas
  say that each piece deletes its first remaining copy.
- LdapUsers.FilteredUsers: the same as `PgRoles.FilteredLoginRoles`, for
  `ignore_users`.
- SyncProperties.DryRunMatchesLive: the comparison drops line breaks.
  Each `print` ends its line, while a live batch runs a role's statements
  together, so the printed text and the sent text differ by those breaks.
- How PostgreSQL reads the double-quoted role name is not modelled. Inside
  a double-quoted identifier a backslash is an ordinary character, so the
  recovery of the raw name holds for the model's `Unescape`, not for the
  name the server creates.
