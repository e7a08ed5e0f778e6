/**
 * The send server as the module state and functions of apps/ultimate-treasury/server/send.ts, refining `SendServer`.
 */
module SendRoutes {
  import opened Wrappers
  import opened SendServer
  import V = SendValidation

  /** What `startSend` passes on once `validateSend` has accepted. */
  function TicketOf(i: V.Input, v: V.Validated): Ticket {
    Ticket(i.req.recipient, v.value, if v.source.Evm? then Evm else Solana, v.weight >= i.pol.thresholdWeight,
           i.allowlisted)
  }

  class Server {
    // Module state of the process.
    var jobs: map<Id, Job>
    var order: seq<Id>
    var pendingMints: map<Id, PendingMint>
    var running: Option<Id>
    // The attestation directory, which outlives the process.
    var disk: map<Id, PendingMint>
    // The promises in flight, and what has happened outside.
    var tasks: map<nat, Task>
    var started: nat
    var usedIds: set<Id>
    var issued: set<Note>
    var submissions: seq<Note>
    var paidBy: map<Note, nat>
    var log: seq<Event>

    ghost function Books(): Ledger
      reads this
    {
      Ledger(pendingMints, disk, usedIds, issued, submissions, paidBy, log)
    }

    ghost function Snapshot(): State
      reads this
    {
      State(Board(jobs, order, running, started), Books(), tasks)
    }

    constructor ()
      ensures Snapshot() == Initial && Inv(Snapshot())
    {
      jobs, order, pendingMints, running, disk := map[], [], map[], None, map[];
      tasks, started, usedIds, issued := map[], 0, {}, {};
      submissions, paidBy, log := [], map[], [];
    }

    method RecordPendingMint(id: Id, p: PendingMint)
      modifies this`pendingMints, this`disk, this`log
      ensures Books() == SendServer.RecordPendingMint(old(Books()), id, p)
    {
      pendingMints := pendingMints[id := p];
      disk := disk[id := p];
      log := log + [Recorded(id, p)];
    }

    method ClearPendingMint(id: Id, p: PendingMint)
      modifies this`pendingMints, this`disk, this`log
      ensures Books() == SendServer.ClearPendingMint(old(Books()), id, p)
    {
      pendingMints := pendingMints - {id};
      disk := disk - {id};
      log := log + [Cleared(id, p)];
    }

    /** Walks the table; the source throws at the first entry that matches. */
    method AssertNoPendingMint(recipient: string, value: nat) returns (clash: Option<Id>)
      ensures clash.Some? <==> HoldsUnminted(pendingMints, recipient, value)
      ensures clash.Some? ==> clash.value in pendingMints && SameKey(recipient, value, pendingMints[clash.value])
    {
      var rest := pendingMints.Keys;
      while rest != {}
        invariant rest <= pendingMints.Keys
        invariant forall id :: id in pendingMints && id !in rest ==> !SameKey(recipient, value, pendingMints[id])
      {
        var id :| id in rest;
        if SameKey(recipient, value, pendingMints[id]) {
          return Some(id);
        }
        rest := rest - {id};
      }
      return None;
    }

    /** Reads every saved attestation back, file by file. */
    method LoadPendingMints()
      requires pendingMints == map[]
      modifies this`pendingMints
      ensures pendingMints == disk
    {
      var rest := disk.Keys;
      while rest != {}
        invariant rest <= disk.Keys
        invariant pendingMints.Keys == disk.Keys - rest
        invariant forall id :: id in pendingMints ==> pendingMints[id] == disk[id]
      {
        var id :| id in rest;
        pendingMints := pendingMints[id := disk[id]];
        rest := rest - {id};
      }
    }

    method Forget()
      modifies this
      ensures Snapshot() == Step(old(Snapshot()), Restart)
    {
      jobs, order, pendingMints, running := map[], [], map[], None;
      tasks := map[];
      LoadPendingMints();
    }

    /** The process dies and starts again: memory is lost, the directory is read back. */
    method Reboot()
      requires Inv(Snapshot())
      modifies this
      ensures Snapshot() == Step(old(Snapshot()), Restart) && Inv(Snapshot())
    {
      ghost var before := Snapshot();
      Forget();
      StepKeepsInv(before, Restart);
    }

    method Track(id: Id, ticket: Ticket, phase: Phase)
      modifies this`running, this`tasks, this`started
      ensures Snapshot() == SendServer.Track(old(Snapshot().board), old(Books()), old(tasks), Task(id, ticket, phase))
    {
      running := Some(id);
      tasks := tasks[started := Task(id, ticket, phase)];
      started := started + 1;
    }

    /** The new job goes on the board, the oldest may fall off it, and its promise starts. */
    method AddJob(id: Id, ticket: Ticket)
      requires id !in jobs && id !in usedIds && running.None?
      requires !HoldsUnminted(pendingMints, ticket.recipient, ticket.value)
      modifies this
      ensures Snapshot() == Send(old(Snapshot()), id, ticket)
    {
      usedIds := usedIds + {id};
      jobs := jobs[id := NewJob(ticket)];
      order := order + [id];
      if |order| > MAX_JOBS {
        jobs := jobs - {order[0]};
        order := order[1..];
      }
      Track(id, ticket, FirstPhase(ticket));
    }

    /**
     * The part of `startSend` after its awaits: validation, the pending check, the lock and the new job, in one turn.
     */
    method StartSend(id: Id, input: V.Input) returns (refusal: Option<nat>)
      requires Inv(Snapshot()) && id !in usedIds
      modifies this
      ensures Inv(Snapshot())
      ensures var checked := V.ValidateSend(input);
        if checked.Err? then refusal == Some(checked.error.status) && Snapshot() == old(Snapshot())
        else
          && Snapshot() == Step(old(Snapshot()), SendServer.StartSend(id, TicketOf(input, checked.value)))
          && (refusal.None? <==> !HoldsUnminted(old(pendingMints), input.req.recipient, checked.value.value)
                                 && old(running).None?)
    {
      var checked := V.ValidateSend(input);
      if checked.Err? { return Some(checked.error.status); }
      refusal := Enqueue(id, TicketOf(input, checked.value));
    }

    method Enqueue(id: Id, ticket: Ticket) returns (refusal: Option<nat>)
      requires Inv(Snapshot()) && id !in usedIds
      modifies this
      ensures Snapshot() == Step(old(Snapshot()), SendServer.StartSend(id, ticket)) && Inv(Snapshot())
      ensures refusal.None? <==>
              !HoldsUnminted(old(pendingMints), ticket.recipient, ticket.value) && old(running).None?
    {
      ghost var before := Snapshot();
      var clash := AssertNoPendingMint(ticket.recipient, ticket.value);
      if clash.Some? || running.Some? {
        refusal := Some(409);
      } else {
        assert id !in jobs;
        AddJob(id, ticket);
        refusal := None;
      }
      StepKeepsInv(before, SendServer.StartSend(id, ticket));
    }

    method RestartMint(id: Id)
      requires id in pendingMints && running.None?
      modifies this
      ensures Snapshot() == Resume(old(Snapshot()), id)
    {
      var p := pendingMints[id];
      var job := if id in jobs then jobs[id] else Job(InProgress, Done, Done, StepState.Pending, false);
      if id !in jobs {
        order := order + [id];
      }
      jobs := jobs[id := job.(status := InProgress, resumable := false, mint := Running)];
      Track(id, Ticket(p.recipient, p.value, if p.dest.Base? then Evm else Solana, false, true), Minting(p));
    }

    /** The same attestation is submitted again; never a new intent. */
    method ResumeMint(id: Id) returns (refusal: Option<nat>)
      requires Inv(Snapshot())
      modifies this
      ensures Snapshot() == Step(old(Snapshot()), SendServer.ResumeMint(id)) && Inv(Snapshot())
      ensures refusal.None? <==> id in old(pendingMints) && old(running).None?
    {
      ghost var before := Snapshot();
      if id !in pendingMints {
        refusal := Some(404);
      } else if running.Some? {
        refusal := Some(409);
      } else {
        RestartMint(id);
        refusal := None;
      }
      StepKeepsInv(before, SendServer.ResumeMint(id));
    }

    ghost predicate Made(before: Ledger, job: Job, t: Task, reply: Reply, after: Job, next: Option<Phase>)
      reads this
    {
      Segment(before, job, t, reply) == Progress(Books(), after, next)
    }

    /** A segment of `runEvm` or `runSolana` up to and including Gateway's answer. */
    method PipelineSegment(t: Task, job: Job, reply: Reply) returns (after: Job, next: Option<Phase>)
      requires t.phase.BeforeGateway()
      modifies this`pendingMints, this`disk, this`issued, this`log
      ensures Made(old(Books()), job, t, reply, after, next)
    {
      after, next := job, Some(t.phase);
      if reply.Throws? {
        next := Some(Threw);
      } else if t.phase.EvmSigning? {
        if reply.Fine? {
          after := job.(approvals := if t.ticket.quorum then Done else Failed, attestation := Running);
          next := Some(EvmPosting);
        }
      } else if t.phase.SolSigning? {
        if reply.SignerRefuses? {
          after := job.(approvals := Failed, status := Refused);
          next := Some(Settled);
        } else if reply.Fine? {
          after := job.(approvals := Done, attestation := Running);
          next := Some(SolPosting(0));
        }
      } else if reply.NotOk? {
        if reply.notAuthorized && t.phase.SolPosting? && t.phase.retries < MAX_RETRIES {
          next := Some(SolPosting(t.phase.retries + 1));
        } else {
          after := job.(attestation := Failed, status := Refused);
          next := Some(Settled);
        }
      } else if (reply.Accepts? || reply.AcceptsUnheard?) && reply.note !in issued {
        after, next := Answered(t, job, reply);
      }
    }

    /** Gateway issued an attestation. If the reply arrived, it is saved before anything else can fail. */
    method Answered(t: Task, job: Job, reply: Reply) returns (after: Job, next: Option<Phase>)
      requires t.phase.EvmPosting? || t.phase.SolPosting?
      requires (reply.Accepts? || reply.AcceptsUnheard?) && reply.note !in issued
      modifies this`pendingMints, this`disk, this`issued, this`log
      ensures Made(old(Books()), job, t, reply, after, next)
    {
      var p := AttestedMint(t, reply);
      issued := issued + {p.note};
      log := log + [Issued(t.jobId, p)];
      if reply.AcceptsUnheard? {
        return job, Some(Threw);
      }
      RecordPendingMint(t.jobId, p);
      return job.(attestation := Done, mint := Running), Some(Minting(p));
    }

    /** A segment of `mint`. */
    method MintSegment(t: Task, job: Job, reply: Reply) returns (after: Job, next: Option<Phase>)
      requires t.phase.InMint()
      modifies this`pendingMints, this`disk, this`submissions, this`log
      ensures Made(old(Books()), job, t, reply, after, next)
    {
      after, next := job, Some(t.phase);
      var p := t.phase.p;
      if reply.Throws? {
        next := Some(Threw);
      } else if t.phase.Minting? {
        if reply.Submits? || reply.SubmitsUnheard? {
          next := Some(if reply.Submits? then MintWaiting(p, |submissions|) else Threw);
          log := log + [Submitted(t.jobId, p, |submissions|)];
          submissions := submissions + [p.note];
        }
      } else if t.phase.MintWaiting? {
        var won := p.note in paidBy && paidBy[p.note] == t.phase.tx;
        if reply.Reverts? && !won {
          next := Some(Threw);
        } else if reply.Succeeds? && won {
          next := Some(MintPolling(p, t.phase.tx));
        }
      } else if reply.Fine? {
        ClearPendingMint(t.jobId, p);
        after := job.(mint := Done, status := Minted);
        next := Some(Settled);
      }
    }

    /** The `catch` and `finally` that `track` attaches. */
    method SettleSegment(t: Task, job: Job, reply: Reply) returns (after: Job, next: Option<Phase>)
      requires t.phase.Threw? || t.phase.Settled?
      ensures Made(Books(), job, t, reply, after, next)
    {
      if t.phase.Threw? {
        after := FailFirstRunning(job).(status := Error);
        if t.jobId in pendingMints {
          after := after.(resumable := true);
        }
        next := Some(Settled);
      } else {
        after, next := SkipPending(job), None;
      }
    }

    method Dispatch(t: Task, job: Job, reply: Reply) returns (after: Job, next: Option<Phase>)
      modifies this`pendingMints, this`disk, this`issued, this`submissions, this`log
      ensures Made(old(Books()), job, t, reply, after, next)
    {
      if t.phase.BeforeGateway() {
        after, next := PipelineSegment(t, job, reply);
      } else if t.phase.InMint() {
        after, next := MintSegment(t, job, reply);
      } else {
        after, next := SettleSegment(t, job, reply);
      }
    }

    method RunSegment(task: nat, reply: Reply)
      requires task in tasks && tasks[task].jobId in jobs
      modifies this
      ensures Snapshot() == Advance(old(Snapshot()), task, reply)
    {
      var t := tasks[task];
      var after, next := Dispatch(t, jobs[t.jobId], reply);
      jobs := jobs[t.jobId := after];
      if next.Some? {
        tasks := tasks[task := t.(phase := next.value)];
      } else {
        tasks := tasks - {task};
        running := None;
      }
    }

    /** Runs one promise from its current await to the next, or to its end. */
    method Continue(task: nat, reply: Reply)
      requires Inv(Snapshot()) && task in tasks
      modifies this
      ensures Snapshot() == Step(old(Snapshot()), Wake(task, reply)) && Inv(Snapshot())
    {
      ghost var before := Snapshot();
      assert Working(before, before.tasks[task]);
      RunSegment(task, reply);
      StepKeepsInv(before, Wake(task, reply));
    }

    /** A mint transaction is included on the destination chain. */
    method Included(tx: nat)
      requires Inv(Snapshot())
      modifies this`paidBy, this`log
      ensures Snapshot() == Step(old(Snapshot()), Land(tx)) && Inv(Snapshot())
    {
      StepKeepsInv(Snapshot(), Land(tx));
      if tx < |submissions| && submissions[tx] !in paidBy {
        paidBy := paidBy[submissions[tx] := tx];
        log := log + [Paid(submissions[tx], tx)];
      }
    }
  }
}
