/** Properties of the apply phase as a whole: the transaction framing of a
    live run, its counters and messages, what a dry run prints, and the
    agreement between the two. */
module SyncProperties {
  import opened Optional
  import opened Text
  import opened Lists
  import opened Settings
  import opened Sync

  lemma {:induction false} FlattenAppend(a: seq<seq<string>>, b: seq<seq<string>>)
    ensures Flatten(a + b) == Flatten(a) + Flatten(b)
    decreases |a|
  {
    if |a| == 0 {
      assert a + b == b;
    } else {
      FlattenAppend(a[1..], b);
      assert (a + b)[1..] == a[1..] + b;
    }
  }

  lemma BatchesAppend(a: seq<seq<string>>, b: seq<seq<string>>)
    ensures Batches(a + b) == Batches(a) + Batches(b)
  {
  }

  /** Sending each item as one concatenated batch sends the same text as
      sending its statements one by one. */
  lemma {:induction false} BatchesText(items: seq<seq<string>>)
    ensures Join(Batches(items), "") == Join(Flatten(items), "")
    decreases |items|
  {
    if |items| > 0 {
      BatchesText(items[1..]);
      assert Batches(items) == [Join(items[0], "")] + Batches(items[1..]);
      ConcatAppend([Join(items[0], "")], Batches(items[1..]));
      ConcatAppend(items[0], Flatten(items[1..]));
    }
  }

  /** The statements a live run executes: with work, `BEGIN;`, the create
      loop's frames, the drop loop's frames and `COMMIT;`; without work,
      nothing. The create frames use the first outcomes and the drop
      frames the ones after them, each loop rolls back once per failed
      role, and every rollback follows the savepoint of the batch it
      undoes. */
  lemma LiveShape(w: Work, oracle: seq<bool>) returns (creates: seq<Statement>, drops: seq<Statement>)
    ensures var r := Execute(w, false, oracle);
            && (w.Pending() ==> r.executed == [Begin] + creates + drops + [Commit])
            && (!w.Pending() ==> r.executed == [])
    ensures forall i :: 0 <= i < |creates| ==> InFrame(CreateLoop, creates[i])
    ensures forall i :: 0 <= i < |drops| ==> InFrame(DropLoop, drops[i])
    ensures Unframe(creates + drops) == Batches(w.Items())
    ensures creates == Frames(CreateLoop, Batches(w.creates), oracle)
    ensures drops == Frames(DropLoop, Batches(w.drops), Skip(oracle, |w.creates|))
    ensures Rollbacks(creates) == |w.creates| - Successes(oracle, |w.creates|)
    ensures Rollbacks(drops) == |w.drops| - Successes(Skip(oracle, |w.creates|), |w.drops|)
    ensures AfterSavepoint(Execute(w, false, oracle).executed)
  {
    if w.Pending() {
      creates, drops := LiveBusy(w, oracle);
    } else {
      LiveIdle(w, oracle);
      creates, drops := [], [];
    }
  }

  lemma LiveIdle(w: Work, oracle: seq<bool>)
    requires !w.Pending()
    ensures Execute(w, false, oracle).executed == []
    ensures w.Items() == []
  {
  }

  lemma LiveBusy(w: Work, oracle: seq<bool>) returns (creates: seq<Statement>, drops: seq<Statement>)
    requires w.Pending()
    ensures Execute(w, false, oracle).executed == [Begin] + creates + drops + [Commit]
    ensures forall i :: 0 <= i < |creates| ==> InFrame(CreateLoop, creates[i])
    ensures forall i :: 0 <= i < |drops| ==> InFrame(DropLoop, drops[i])
    ensures Unframe(creates + drops) == Batches(w.Items())
    ensures creates == Frames(CreateLoop, Batches(w.creates), oracle)
    ensures drops == Frames(DropLoop, Batches(w.drops), Skip(oracle, |w.creates|))
    ensures Rollbacks(creates) == |w.creates| - Successes(oracle, |w.creates|)
    ensures Rollbacks(drops) == |w.drops| - Successes(Skip(oracle, |w.creates|), |w.drops|)
    ensures AfterSavepoint(Execute(w, false, oracle).executed)
  {
    var ci := w.creates;
    var di := w.drops;
    var s1 := Open(true, false, oracle);
    var s2 := Steps(CreateLoop, ci, false, s1);
    creates := StepsLog(CreateLoop, ci, s1);
    StepsLive(CreateLoop, ci, s1);
    drops := StepsLog(DropLoop, di, s2);
    UnframeAppend(creates, drops);
    BatchesAppend(ci, di);
    assert Loops(w, false, s1) == Steps(DropLoop, di, false, s2);
    assert AfterSavepoint([Begin]) && AfterSavepoint([Commit]);
    AfterSavepointAppend([Begin], creates);
    AfterSavepointAppend([Begin] + creates, drops);
    AfterSavepointAppend([Begin] + creates + drops, [Commit]);
  }

  /** The shape of a busy live run without the outcome-dependent detail. */
  lemma LiveBody(w: Work, oracle: seq<bool>) returns (creates: seq<Statement>, drops: seq<Statement>)
    requires w.Pending()
    ensures Execute(w, false, oracle).executed == [Begin] + (creates + drops) + [Commit]
    ensures forall i :: 0 <= i < |creates| ==> InFrame(CreateLoop, creates[i])
    ensures forall i :: 0 <= i < |drops| ==> InFrame(DropLoop, drops[i])
    ensures Unframe(creates + drops) == Batches(w.Items())
  {
    creates, drops := LiveBusy(w, oracle);
    AppendAssociative([Begin] + creates, drops, [Commit]);
    AppendAssociative([Begin], creates, drops);
  }

  /** A live run rolls back exactly as many times as it counts errors, and
      every rollback follows the savepoint of the batch it undoes. */
  lemma LiveRollbacks(w: Work, oracle: seq<bool>)
    ensures var r := Execute(w, false, oracle);
            && AfterSavepoint(r.executed)
            && Rollbacks(r.executed) == r.counters.addErrors + r.counters.dropErrors
  {
    LiveCounters(w, oracle);
    if w.Pending() {
      var creates, drops := LiveBusy(w, oracle);
      RollbacksBracket(creates, drops);
    } else {
      LiveIdle(w, oracle);
    }
  }

  /** `BEGIN;` and `COMMIT;` are not rollbacks. */
  lemma RollbacksBracket(creates: seq<Statement>, drops: seq<Statement>)
    ensures Rollbacks([Begin] + creates + drops + [Commit]) == Rollbacks(creates) + Rollbacks(drops)
  {
    var body := creates + drops;
    RollbacksAppend(creates, drops);
    RollbacksAppend([Begin], body);
    RollbacksAppend([Begin] + body, [Commit]);
    assert Rollbacks([Begin]) == 0 && Rollbacks([Commit]) == 0;
    assert [Begin] + creates + drops + [Commit] == [Begin] + body + [Commit];
  }

  /** A live run with work executes exactly one transaction: `BEGIN;`
      first, `COMMIT;` last, only savepoint frames between them, every
      create frame before every drop frame, and, framing aside, one batch
      per role in plan order. Without work it executes nothing. Either
      way it rolls back once per counted error, each time right after the
      failed batch's savepoint. */
  lemma LiveTransaction(w: Work, oracle: seq<bool>)
    ensures var e := Execute(w, false, oracle).executed;
            |e| > 0 <==> w.Pending()
    ensures var e := Execute(w, false, oracle).executed;
            w.Pending() ==>
              && |e| >= 2 && e[0] == Begin && e[|e| - 1] == Commit
              && (forall i :: 0 < i < |e| - 1 ==> InFrame(CreateLoop, e[i]) || InFrame(DropLoop, e[i]))
              && (forall i, j :: 0 < i < j < |e| - 1 && InFrame(DropLoop, e[i]) ==> !InFrame(CreateLoop, e[j]))
              && Unframe(e[1..|e| - 1]) == Batches(w.Items())
    ensures var r := Execute(w, false, oracle);
            && AfterSavepoint(r.executed)
            && Rollbacks(r.executed) == r.counters.addErrors + r.counters.dropErrors
  {
    LiveRollbacks(w, oracle);
    var creates, drops := LiveShape(w, oracle);
    if w.Pending() {
      TransactionShape(Execute(w, false, oracle).executed, creates, drops);
    }
  }

  /** A log made of `BEGIN;`, create frames, drop frames and `COMMIT;`. */
  lemma TransactionShape(e: seq<Statement>, creates: seq<Statement>, drops: seq<Statement>)
    requires e == [Begin] + creates + drops + [Commit]
    requires forall i :: 0 <= i < |creates| ==> InFrame(CreateLoop, creates[i])
    requires forall i :: 0 <= i < |drops| ==> InFrame(DropLoop, drops[i])
    ensures |e| >= 2 && e[0] == Begin && e[|e| - 1] == Commit
    ensures e[1..|e| - 1] == creates + drops
    ensures forall i :: 0 < i < |e| - 1 ==> InFrame(CreateLoop, e[i]) || InFrame(DropLoop, e[i])
    ensures forall i, j :: 0 < i < j < |e| - 1 && InFrame(DropLoop, e[i]) ==> !InFrame(CreateLoop, e[j])
  {
    assert e[1..|e| - 1] == creates + drops;
    forall i | 0 < i < |e| - 1
      ensures i <= |creates| ==> InFrame(CreateLoop, e[i])
      ensures i > |creates| ==> InFrame(DropLoop, e[i])
    {
      if i <= |creates| {
        assert e[i] == creates[i - 1];
      } else {
        assert e[i] == drops[i - 1 - |creates|];
      }
    }
  }

  /** Framing aside, a live run sends `BEGIN;`, one batch per planned
      role in plan order and `COMMIT;` when there is work, and nothing
      otherwise. */
  lemma LiveText(w: Work, oracle: seq<bool>)
    ensures Unframe(Execute(w, false, oracle).executed)
            == if w.Pending() then [Sql(Begin)] + Batches(w.Items()) + [Sql(Commit)] else []
  {
    if w.Pending() {
      var creates, drops := LiveBody(w, oracle);
      UnframeBracket(creates + drops);
    } else {
      LiveIdle(w, oracle);
    }
  }

  /** The outcomes decide only the rollbacks and counters: whatever fails,
      a live run sends the same batches. */
  lemma OutcomesDoNotChangeBatches(w: Work, o1: seq<bool>, o2: seq<bool>)
    ensures Unframe(Execute(w, false, o1).executed) == Unframe(Execute(w, false, o2).executed)
  {
    LiveText(w, o1);
    LiveText(w, o2);
  }

  /** Unframing a transaction keeps its `BEGIN;` and `COMMIT;`. */
  lemma UnframeBracket(body: seq<Statement>)
    ensures Unframe([Begin] + body + [Commit]) == [Sql(Begin)] + Unframe(body) + [Sql(Commit)]
  {
    UnframeAppend([Begin], body);
    UnframeAppend([Begin] + body, [Commit]);
    assert Unframe([Begin]) == [Sql(Begin)];
    assert Unframe([Commit]) == [Sql(Commit)];
  }

  /** The counters of a live run: each enabled loop makes one attempt per
      role, the creations use the first outcomes and the drops the ones
      after them; the printed lines are the summary when there was work
      and the no-work message otherwise. */
  lemma LiveCounters(w: Work, oracle: seq<bool>)
    ensures var r := Execute(w, false, oracle);
            var nc := |w.creates|;
            var nd := |w.drops|;
            && r.counters.added == Successes(oracle, nc)
            && r.counters.addErrors == nc - r.counters.added
            && r.counters.dropped == Successes(Skip(oracle, nc), nd)
            && r.counters.dropErrors == nd - r.counters.dropped
    ensures var r := Execute(w, false, oracle);
            && (w.Pending() <==> r.counters.added + r.counters.addErrors
                                       + r.counters.dropped + r.counters.dropErrors > 0)
            && r.stdout == (if w.Pending() then Summary(r.counters) else [NoWorkMessage])
  {
    if w.Pending() {
      var s1 := Open(true, false, oracle);
      StepsLive(CreateLoop, w.creates, s1);
      StepsLive(DropLoop, w.drops, Steps(CreateLoop, w.creates, false, s1));
    }
  }

  lemma {:induction false} SuccessesFlip(oracle: seq<bool>, n: nat, k: nat)
    requires k < n && k < |oracle| && oracle[k]
    ensures Successes(oracle[k := false], n) == Successes(oracle, n) - 1
    decreases n
  {
    if k > 0 {
      assert Advance(oracle[k := false]) == Advance(oracle)[k - 1 := false];
      SuccessesFlip(Advance(oracle), n - 1, k - 1);
    } else {
      assert Advance(oracle[k := false]) == Advance(oracle);
    }
  }

  lemma {:induction false} SkipFlip(oracle: seq<bool>, n: nat, k: nat)
    requires k < n && k < |oracle|
    ensures Skip(oracle[k := false], n) == Skip(oracle, n)
    decreases n
  {
    if k > 0 {
      assert Advance(oracle[k := false]) == Advance(oracle)[k - 1 := false];
      SkipFlip(Advance(oracle), n - 1, k - 1);
    } else {
      assert Advance(oracle[k := false]) == Advance(oracle);
    }
  }

  /** One creation failing instead of succeeding costs exactly that role:
      one fewer role added, one more error, the same drops, and the same
      batches sent for every role. */
  lemma CreateFailureIsolated(w: Work, oracle: seq<bool>, k: nat)
    requires k < |w.creates| && k < |oracle| && oracle[k]
    ensures var a := Execute(w, false, oracle);
            var b := Execute(w, false, oracle[k := false]);
            && b.counters.added + 1 == a.counters.added
            && b.counters.addErrors == a.counters.addErrors + 1
            && b.counters.dropped == a.counters.dropped
            && b.counters.dropErrors == a.counters.dropErrors
            && Unframe(b.executed) == Unframe(a.executed)
  {
    LiveCounters(w, oracle);
    LiveCounters(w, oracle[k := false]);
    SuccessesFlip(oracle, |w.creates|, k);
    SkipFlip(oracle, |w.creates|, k);
    OutcomesDoNotChangeBatches(w, oracle, oracle[k := false]);
  }

  /** A dry run executes nothing and counts nothing; it prints the banner,
      then either `BEGIN;`, every planned statement in order and `COMMIT;`,
      or the no-work message. */
  lemma DryRunPrints(w: Work, oracle: seq<bool>)
    ensures var r := Execute(w, true, oracle);
            && r.executed == []
            && r.counters == Counters(0, 0, 0, 0)
            && |r.stdout| >= 3 && r.stdout[..2] == DryRunBanner
            && r.stdout[2..] == (if w.Pending() then [Sql(Begin)] + Flatten(w.Items()) + [Sql(Commit)]
                                 else [NoWorkMessage])
  {
    var ci := w.creates;
    var di := w.drops;
    var work := w.Pending();
    var s1 := Open(work, true, oracle);
    var s2 := Steps(CreateLoop, ci, true, s1);
    var s3 := Steps(DropLoop, di, true, s2);
    StepsDry(CreateLoop, ci, s1);
    StepsDry(DropLoop, di, s2);
    assert Loops(w, true, s1) == s3;
    assert s3.stdout == s1.stdout + Flatten(ci) + Flatten(di);
    FlattenAppend(ci, di);
    var tail := if work then [Sql(Begin)] + Flatten(ci + di) + [Sql(Commit)] else [NoWorkMessage];
    if work {
      var begun := DryRunBanner + [Sql(Begin)];
      AppendAssociative(begun, Flatten(ci), Flatten(di));
      AppendAssociative(begun, Flatten(ci) + Flatten(di), [Sql(Commit)]);
      AppendAssociative(DryRunBanner, [Sql(Begin)], Flatten(ci) + Flatten(di) + [Sql(Commit)]);
      AppendAssociative([Sql(Begin)], Flatten(ci) + Flatten(di), [Sql(Commit)]);
    } else {
      assert Flatten(ci + di) == [];
    }
    assert Execute(w, true, oracle).stdout == DryRunBanner + tail;
  }

  /** Apart from line breaks, the dry run prints the text a live run
      sends, framing aside, whatever the outcomes of the live run: each
      `print` ends its line, while a live batch runs a role's statements
      together, so the two agree once both are concatenated without
      separators. */
  lemma DryRunMatchesLive(w: Work, oracle: seq<bool>)
    requires w.Pending()
    ensures var out := Execute(w, true, oracle).stdout;
            |out| >= 2 && Join(Unframe(Execute(w, false, oracle).executed), "") == Join(out[2..], "")
  {
    var items := w.Items();
    LiveText(w, oracle);
    DryRunPrints(w, oracle);
    BatchesText(items);
    JoinBracket(Batches(items), Flatten(items));
  }

  lemma JoinBracket(a: seq<string>, b: seq<string>)
    requires Join(a, "") == Join(b, "")
    ensures Join([Sql(Begin)] + a + [Sql(Commit)], "") == Join([Sql(Begin)] + b + [Sql(Commit)], "")
  {
    ConcatAppend([Sql(Begin)], a);
    ConcatAppend([Sql(Begin)] + a, [Sql(Commit)]);
    ConcatAppend([Sql(Begin)], b);
    ConcatAppend([Sql(Begin)] + b, [Sql(Commit)]);
  }

  /** The last printed line is the no-work message exactly when there is
      no work, in both modes. */
  lemma NoWorkMessageIffIdle(w: Work, dryRun: bool, oracle: seq<bool>)
    ensures var out := Execute(w, dryRun, oracle).stdout;
            |out| > 0 && (out[|out| - 1] == NoWorkMessage <==> !w.Pending())
  {
    if dryRun {
      DryRunPrints(w, oracle);
      var out := Execute(w, dryRun, oracle).stdout;
      assert out == out[..2] + out[2..];
      assert Sql(Commit)[0] == 'C';
    } else {
      LiveCounters(w, oracle);
      SummaryLinesDiffer(Execute(w, false, oracle).counters);
    }
  }

  /** What a run of some work leaves behind in either mode: a dry run
      executes and counts nothing; a live run counts each role of each
      list once and executes statements exactly when there is work; the
      last printed line is the no-work message exactly when there is none. */
  lemma RunOutcome(w: Work, dryRun: bool, oracle: seq<bool>)
    ensures var r := Execute(w, dryRun, oracle);
            dryRun ==> r.executed == [] && r.counters == Counters(0, 0, 0, 0)
    ensures var r := Execute(w, dryRun, oracle);
            !dryRun ==>
              && r.counters.added + r.counters.addErrors == |w.creates|
              && r.counters.dropped + r.counters.dropErrors == |w.drops|
              && (|r.executed| > 0 <==> w.Pending())
    ensures var out := Execute(w, dryRun, oracle).stdout;
            |out| > 0 && (out[|out| - 1] == NoWorkMessage <==> !w.Pending())
  {
    if dryRun {
      DryRunPrints(w, oracle);
    } else {
      LiveCounters(w, oracle);
      LiveTransaction(w, oracle);
    }
    NoWorkMessageIffIdle(w, dryRun, oracle);
  }

  /** No summary line reads as the no-work message. */
  lemma SummaryLinesDiffer(c: Counters)
    ensures |Summary(c)| >= 2
    ensures forall i :: 0 <= i < |Summary(c)| ==> Summary(c)[i] != NoWorkMessage
  {
    var s := Summary(c);
    assert NoWorkMessage[0] == 'N';
    forall i | 0 <= i < |s|
      ensures s[i] != NoWorkMessage
    {
      assert s[i][0] in "LE";
    }
  }

  lemma NatToStringParse(n: nat)
    ensures ParseNat(NatToString(n)) == Some(n)
  {
    NatToStringValue(n);
  }

  /** Every summary line is a 35-character label followed by its counter
      in decimal; the error lines appear only for positive counters. */
  lemma SummaryReadsBack(c: Counters)
    ensures var s := Summary(c);
            && |s| == 2 + (if c.addErrors > 0 then 1 else 0) + (if c.dropErrors > 0 then 1 else 0)
            && (forall i :: 0 <= i < |s| ==> |s[i]| > 35)
            && ParseNat(s[0][35..]) == Some(c.added)
            && ParseNat(s[1][35..]) == Some(c.dropped)
            && (c.addErrors > 0 ==> ParseNat(s[2][35..]) == Some(c.addErrors))
            && (c.dropErrors > 0 ==> ParseNat(s[|s| - 1][35..]) == Some(c.dropErrors))
  {
    NatToStringParse(c.added);
    NatToStringParse(c.dropped);
    NatToStringParse(c.addErrors);
    NatToStringParse(c.dropErrors);
    var s := Summary(c);
    assert s[0][35..] == NatToString(c.added);
    assert s[1][35..] == NatToString(c.dropped);
    if c.addErrors > 0 {
      assert s[2][35..] == NatToString(c.addErrors);
    }
    if c.dropErrors > 0 {
      assert s[|s| - 1][35..] == NatToString(c.dropErrors);
    }
  }
}
