/** The tables together with the run of operations that led to them, and the services that add to it. */
module Journal {
  import opened Outcomes
  import opened Ledger
  import opened Invariants
  import opened Store
  import opened Effects
  import Calendar

  // ---------------------------------------------------------------- one more operation of a run

  lemma RunGrows(run: seq<Op>, op: Op)
    ensures After(run + [op]) == Apply(After(run), op)
  {
    assert (run + [op])[..|run|] == run;
  }

  /** What an operation settles on is where the run leads with it. */
  lemma StepSettles(run: seq<Op>, op: Op, t: State, error: Option<Error>)
    requires Settles(After(run), t, Step(After(run), op), error)
    ensures t == After(run + [op])
  {
    RunGrows(run, op);
    SettledIsApplied(After(run), op, Step(After(run), op), t, error);
  }

  lemma SettledIsApplied(s: State, op: Op, r: Result<State, Error>, t: State, error: Option<Error>)
    requires Step(s, op) == r && Settles(s, t, r, error)
    ensures t == Apply(s, op)
  {
  }

  lemma EmissionSettles(s: State, q: CloseRequest, t: State, error: Option<Error>)
    requires Settles(s, t, CloseCycle(s, q), error)
    ensures t == Apply(s, OpClose(q))
  {
    SettledIsApplied(s, OpClose(q), CloseCycle(s, q), t, error);
  }

  lemma CreditSettles(s: State, q: CreditRequest, t: State, error: Option<Error>)
    requires Settles(s, t, EmitCreditNote(s, q), error)
    ensures t == Apply(s, OpCredit(q))
  {
    SettledIsApplied(s, OpCredit(q), EmitCreditNote(s, q), t, error);
  }

  lemma PurchaseRecorded(run: seq<Op>, hours: nat, today: Calendar.Day, t: State)
    requires t == AddHours(After(run), hours, today)
    ensures t == After(run + [OpAddHours(hours, today)]) && Purchases(After(run), t, hours, today)
  {
    RunGrows(run, OpAddHours(hours, today));
    ReachableInv(run);
    PurchaseAdds(After(run), hours, today);
  }

  lemma ConfirmationRecorded(run: seq<Op>, e: Confirm, t: State)
    requires t == ConfirmEntry(After(run), e)
    ensures t == After(run + [OpConfirm(e)]) && Confirms(After(run), t, e)
  {
    RunGrows(run, OpConfirm(e));
    ReachableInv(run);
    ConfirmationIsOne(After(run), e);
  }

  lemma ReversalRecorded(run: seq<Op>, e: Revert, t: State)
    requires t == RevertEntry(After(run), e)
    ensures t == After(run + [OpRevert(e)]) && Reverses(After(run), t, e)
  {
    RunGrows(run, OpRevert(e));
    ReachableInv(run);
    ReversalGivesBack(After(run), e);
  }

  lemma DeletionRecorded(run: seq<Op>, i: nat, t: State, error: Option<Error>)
    requires Settles(After(run), t, DeleteHours(After(run), i), error)
    ensures t == After(run + [OpDelete(i)]) && Deletes(After(run), t, i, error)
  {
    StepSettles(run, OpDelete(i), t, error);
    ReachableInv(run);
    DeletionTombstones(After(run), i, t, error);
  }

  lemma EditRecorded(run: seq<Op>, i: nat, hours: Option<nat>, edit: RateEdit, t: State, error: Option<Error>)
    requires Settles(After(run), t, EditHours(After(run), i, hours, edit), error)
    ensures t == After(run + [OpEdit(i, hours, edit)]) && Edits(After(run), t, i, hours, edit, error)
  {
    StepSettles(run, OpEdit(i, hours, edit), t, error);
    ReachableInv(run);
    EditReprices(After(run), i, hours, edit, t, error);
  }

  lemma UpsertRecorded(run: seq<Op>, period: Calendar.Month, items: seq<Item>, t: State, error: Option<Error>)
    requires Settles(After(run), t, UpsertVariables(After(run), period, items), error)
    ensures t == After(run + [OpUpsert(period, items)]) && Restates(After(run), t, period, Some(items), error)
  {
    StepSettles(run, OpUpsert(period, items), t, error);
    UpsertRestates(After(run), period, items, t, error);
  }

  lemma RemovalRecorded(run: seq<Op>, period: Calendar.Month, t: State, error: Option<Error>)
    requires Settles(After(run), t, RemoveVariables(After(run), period), error)
    ensures t == After(run + [OpRemove(period)]) && Restates(After(run), t, period, None, error)
  {
    StepSettles(run, OpRemove(period), t, error);
    RemovalRestates(After(run), period, t, error);
  }

  lemma EmissionRecorded(run: seq<Op>, q: CloseRequest, t: State, error: Option<Error>)
    requires Settles(After(run), t, CloseCycle(After(run), q), error)
    ensures t == After(run + [OpClose(q)]) && Closes(After(run), t, q, error)
  {
    RunGrows(run, OpClose(q));
    EmissionSettles(After(run), q, t, error);
    ReachableInv(run);
    EmissionCloses(After(run), q, t, error);
  }

  lemma CancellationRecorded(run: seq<Op>, c: nat, reason: string, t: State, error: Option<Error>)
    requires Settles(After(run), t, ReopenCycle(After(run), c, reason), error)
    ensures t == After(run + [OpReopen(c, reason)]) && Cancels(After(run), t, c, reason, error)
  {
    StepSettles(run, OpReopen(c, reason), t, error);
    ReachableInv(run);
    CancellationEmpties(After(run), c, reason, t, error);
  }

  lemma UpdateRecorded(run: seq<Op>, c: nat, status: Option<Status>, notes: Option<string>, now: Calendar.Instant,
                       t: State, error: Option<Error>)
    requires Settles(After(run), t, UpdateCycle(After(run), c, status, notes, now), error)
    ensures t == After(run + [OpUpdate(c, status, notes, now)]) && Updates(After(run), t, c, status, notes, now, error)
  {
    StepSettles(run, OpUpdate(c, status, notes, now), t, error);
    ReachableInv(run);
    UpdateMoves(After(run), c, status, notes, now, t, error);
  }

  lemma WriteOffRecorded(run: seq<Op>, c: nat, reason: string, t: State, error: Option<Error>)
    requires Settles(After(run), t, WriteOffCycle(After(run), c, reason), error)
    ensures t == After(run + [OpWriteOff(c, reason)]) && WritesOff(After(run), t, c, reason, error)
  {
    StepSettles(run, OpWriteOff(c, reason), t, error);
    ReachableInv(run);
    WriteOffMoves(After(run), c, reason, t, error);
  }

  lemma CreditRecorded(run: seq<Op>, q: CreditRequest, t: State, error: Option<Error>)
    requires Settles(After(run), t, EmitCreditNote(After(run), q), error)
    ensures t == After(run + [OpCredit(q)]) && Credits(After(run), t, q, error)
  {
    RunGrows(run, OpCredit(q));
    CreditSettles(After(run), q, t, error);
    NoteCredits(After(run), q, t, error);
  }

  // ---------------------------------------------------------------- the services of a client

  class Services {
    const tables: Tables
    ghost var run: seq<Op>

    /** The tables are where the recorded run leads, so everything proved of reachable states is true of them. */
    ghost predicate Valid()
      reads this, tables
    {
      tables.View() == After(run)
    }

    constructor ()
      ensures Valid() && fresh(tables) && run == []
    {
      tables := new Tables();
      run := [];
    }

    lemma Sound()
      requires Valid()
      ensures Inv(tables.View())
    {
      ReachableInv(run);
    }

    method SetTask(id: nat, task: Task)
      requires Valid()
      modifies this`run, tables
      ensures Valid() && run == old(run) + [Op.SetTask(id, task)] && tables.tasks == old(tables.tasks)[id := task]
    {
      tables.SetTask(id, task);
      RunGrows(run, Op.SetTask(id, task));
      run := run + [Op.SetTask(id, task)];
    }

    method SetTerms(supportRate: Option<nat>, taxRate: Option<int>, taxMode: Option<string>)
      requires Valid()
      modifies this`run, tables
      ensures Valid() && run == old(run) + [Op.SetTerms(supportRate, taxRate, taxMode)]
      ensures tables.client == old(tables.client).(supportRate := supportRate, taxRate := taxRate, taxMode := taxMode)
    {
      tables.SetTerms(supportRate, taxRate, taxMode);
      RunGrows(run, Op.SetTerms(supportRate, taxRate, taxMode));
      run := run + [Op.SetTerms(supportRate, taxRate, taxMode)];
    }

    method AddHours(hours: nat, today: Calendar.Day)
      requires Valid()
      modifies this`run, tables
      ensures Valid() && run == old(run) + [OpAddHours(hours, today)]
      ensures Purchases(old(tables.View()), tables.View(), hours, today)
    {
      tables.AddHours(hours, today);
      PurchaseRecorded(run, hours, today, tables.View());
      run := run + [OpAddHours(hours, today)];
    }

    method ConfirmEntry(e: Confirm)
      requires Valid()
      modifies this`run, tables
      ensures Valid() && run == old(run) + [OpConfirm(e)]
      ensures Confirms(old(tables.View()), tables.View(), e)
    {
      tables.ConfirmEntry(e);
      ConfirmationRecorded(run, e, tables.View());
      run := run + [OpConfirm(e)];
    }

    method RevertEntry(e: Revert)
      requires Valid()
      modifies this`run, tables
      ensures Valid() && run == old(run) + [OpRevert(e)]
      ensures Reverses(old(tables.View()), tables.View(), e)
    {
      tables.RevertEntry(e);
      ReversalRecorded(run, e, tables.View());
      run := run + [OpRevert(e)];
    }

    method DeleteHours(i: nat) returns (error: Option<Error>)
      requires Valid()
      modifies this`run, tables
      ensures Valid() && run == old(run) + [OpDelete(i)]
      ensures Deletes(old(tables.View()), tables.View(), i, error)
    {
      error := tables.DeleteHours(i);
      DeletionRecorded(run, i, tables.View(), error);
      run := run + [OpDelete(i)];
    }

    method EditHours(i: nat, hours: Option<nat>, edit: RateEdit) returns (error: Option<Error>)
      requires Valid()
      modifies this`run, tables
      ensures Valid() && run == old(run) + [OpEdit(i, hours, edit)]
      ensures Edits(old(tables.View()), tables.View(), i, hours, edit, error)
    {
      error := tables.EditHours(i, hours, edit);
      EditRecorded(run, i, hours, edit, tables.View(), error);
      run := run + [OpEdit(i, hours, edit)];
    }

    method UpsertVariables(period: Calendar.Month, items: seq<Item>) returns (error: Option<Error>)
      requires Valid()
      modifies this`run, tables
      ensures Valid() && run == old(run) + [OpUpsert(period, items)]
      ensures Restates(old(tables.View()), tables.View(), period, Some(items), error)
    {
      error := tables.UpsertVariables(period, items);
      UpsertRecorded(run, period, items, tables.View(), error);
      run := run + [OpUpsert(period, items)];
    }

    method RemoveVariables(period: Calendar.Month) returns (error: Option<Error>)
      requires Valid()
      modifies this`run, tables
      ensures Valid() && run == old(run) + [OpRemove(period)]
      ensures Restates(old(tables.View()), tables.View(), period, None, error)
    {
      error := tables.RemoveVariables(period);
      RemovalRecorded(run, period, tables.View(), error);
      run := run + [OpRemove(period)];
    }

    method CloseCycle(q: CloseRequest) returns (error: Option<Error>)
      requires Valid()
      modifies this`run, tables
      ensures Valid() && run == old(run) + [OpClose(q)]
      ensures Closes(old(tables.View()), tables.View(), q, error)
    {
      error := tables.CloseCycle(q);
      EmissionRecorded(run, q, tables.View(), error);
      run := run + [OpClose(q)];
    }

    method ReopenCycle(c: nat, reason: string) returns (error: Option<Error>)
      requires Valid()
      modifies this`run, tables
      ensures Valid() && run == old(run) + [OpReopen(c, reason)]
      ensures Cancels(old(tables.View()), tables.View(), c, reason, error)
    {
      error := tables.ReopenCycle(c, reason);
      CancellationRecorded(run, c, reason, tables.View(), error);
      run := run + [OpReopen(c, reason)];
    }

    method UpdateCycle(c: nat, status: Option<Status>, notes: Option<string>, now: Calendar.Instant)
      returns (error: Option<Error>)
      requires Valid()
      modifies this`run, tables
      ensures Valid() && run == old(run) + [OpUpdate(c, status, notes, now)]
      ensures Updates(old(tables.View()), tables.View(), c, status, notes, now, error)
    {
      error := tables.UpdateCycle(c, status, notes, now);
      UpdateRecorded(run, c, status, notes, now, tables.View(), error);
      run := run + [OpUpdate(c, status, notes, now)];
    }

    method WriteOffCycle(c: nat, reason: string) returns (error: Option<Error>)
      requires Valid()
      modifies this`run, tables
      ensures Valid() && run == old(run) + [OpWriteOff(c, reason)]
      ensures WritesOff(old(tables.View()), tables.View(), c, reason, error)
    {
      error := tables.WriteOffCycle(c, reason);
      WriteOffRecorded(run, c, reason, tables.View(), error);
      run := run + [OpWriteOff(c, reason)];
    }

    method EmitCreditNote(q: CreditRequest) returns (error: Option<Error>)
      requires Valid()
      modifies this`run, tables
      ensures Valid() && run == old(run) + [OpCredit(q)]
      ensures Credits(old(tables.View()), tables.View(), q, error)
    {
      error := tables.EmitCreditNote(q);
      CreditRecorded(run, q, tables.View(), error);
      run := run + [OpCredit(q)];
    }
  }
}
