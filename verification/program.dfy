/** One run of the program once its configuration is read: the directory
    searches, the login roles the role query fetched, reconciliation and
    the apply phase. */
module Program {
  import opened Optional
  import opened Text
  import opened Lists
  import opened Settings
  import opened PgRoles
  import opened LdapUsers
  import opened Sync
  import opened SyncProperties

  /** The apply phase: the plan's work executed or printed. A dry run
      executes and counts nothing. A live run makes one attempt per role of
      each enabled list, each counted once as a success or as an error, and
      executes statements exactly when there is work. In both modes the
      last printed line is the no-work message exactly when there is no
      work. */
  function Apply(g: GeneralSection, plan: Plan, dryRun: bool, oracle: seq<bool>): (report: Report)
    ensures dryRun ==> report.executed == [] && report.counters == Counters(0, 0, 0, 0)
    ensures !dryRun ==>
              var c := report.counters;
              && c.added + c.addErrors == (if g.addLdapUsersToPostgres then |plan.toCreate| else 0)
              && c.dropped + c.dropErrors == (if g.removeLoginRolesFromPostgres then |plan.toDrop| else 0)
              && (|report.executed| > 0 <==> HaveWork(g, plan))
    ensures var out := report.stdout;
            |out| > 0 && (out[|out| - 1] == NoWorkMessage <==> !HaveWork(g, plan))
  {
    var w := PlannedWork(g, plan);
    RunOutcome(w, dryRun, oracle);
    Execute(w, dryRun, oracle)
  }

  /** A run: `None` when it ends early because a directory entry lacks
      the user name attribute, otherwise what the apply phase printed,
      executed and counted. */
  function Run(cfg: Config, dryRun: bool, directory: Directory, fetchedRoles: seq<string>, oracle: seq<bool>): (report: Option<Report>)
    ensures report.Some? <==> Reconcile(cfg, directory, fetchedRoles).Some?
    ensures report.Some? && dryRun ==>
              report.value.executed == [] && report.value.counters == Counters(0, 0, 0, 0)
    ensures report.Some? && !dryRun ==>
              var c := report.value.counters;
              var plan := Reconcile(cfg, directory, fetchedRoles).value;
              && c.added + c.addErrors == (if cfg.general.addLdapUsersToPostgres then |plan.toCreate| else 0)
              && c.dropped + c.dropErrors == (if cfg.general.removeLoginRolesFromPostgres then |plan.toDrop| else 0)
    ensures report.Some? ==>
              var out := report.value.stdout;
              |out| > 0 && (out[|out| - 1] == NoWorkMessage
                            <==> !HaveWork(cfg.general, Reconcile(cfg, directory, fetchedRoles).value))
  {
    match Reconcile(cfg, directory, fetchedRoles)
    case None => None
    case Some(plan) => Some(Apply(cfg.general, plan, dryRun, oracle))
  }
}
