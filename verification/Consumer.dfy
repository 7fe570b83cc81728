// The recording thread of a mount: it polls the queue while it is told to run, and
// applies what it gets, whatever comes of it.
module Consumer {
  import opened Wrappers
  import opened Opcodes
  import opened Commutation
  import opened Queue
  import opened Recording
  import opened Backend

  function Concat(parts: seq<seq<Opcode>>): seq<Opcode> {
    if parts == [] then [] else parts[0] + Concat(parts[1..])
  }

  lemma {:induction false} ConcatSnoc(parts: seq<seq<Opcode>>, last: seq<Opcode>)
    ensures Concat(parts + [last]) == Concat(parts) + last
    decreases |parts|
  {
    if parts == [] {
      assert parts + [last] == [last] && [last][1..] == [];
    } else {
      assert (parts + [last])[0] == parts[0] && (parts + [last])[1..] == parts[1..] + [last];
      ConcatSnoc(parts[1..], last);
    }
  }

  // Applied opcodes as jobs; libs(k) is what libpijul makes of the k-th of them.
  function JobsOf(opcodes: seq<Opcode>, libs: nat -> Library): (r: seq<Job>)
    ensures |r| == |opcodes|
    ensures forall k | 0 <= k < |r| :: r[k] == Job(opcodes[k].op, libs(k))
  {
    seq(|opcodes|, k requires 0 <= k < |opcodes| => Job(opcodes[k].op, libs(k)))
  }

  // One round of the loop, after `arrived` has come in.
  method PollOnce(queue: OpcodeQueue, backend: OpcodeRecordingBackend, arrived: seq<Opcode>, lib: Library)
    returns (popped: seq<Opcode>)
    modifies queue, backend.pijul
    ensures popped + queue.queue == old(queue.queue) + arrived
    ensures |popped| == if old(queue.queue) == [] && arrived == [] then 0 else 1
    ensures popped == [] ==> backend.pijul.Repository() == old(backend.pijul.Repository())
    ensures popped != [] ==>
              backend.pijul.Repository() == ApplyLogged(old(backend.pijul.Repository()), Job(popped[0].op, lib)).0
  {
    queue.queue := queue.queue + arrived;
    var opcode := queue.TryPop();
    if opcode.None? {
      // sleeps
      return [];
    }
    var _ := backend.ApplyOpcode(opcode.value, lib);
    return [opcode.value];
  }

  lemma {:induction false} OneMoreJob(repo: Repo, applied: seq<Opcode>, next: Opcode, libs: nat -> Library)
    ensures Run(ApplyLogged, repo, JobsOf(applied + [next], libs)).0 ==
            ApplyLogged(Run(ApplyLogged, repo, JobsOf(applied, libs)).0, Job(next.op, libs(|applied|))).0
  {
    var job := Job(next.op, libs(|applied|));
    RunSplits(ApplyLogged, repo, JobsOf(applied, libs), [job]);
    assert JobsOf(applied + [next], libs) == JobsOf(applied, libs) + [job];
    assert [job][1..] == [];
  }

  // A round, as it adds to what was applied before.
  method ApplyOne(queue: OpcodeQueue, backend: OpcodeRecordingBackend, arrived: seq<Opcode>, libs: nat -> Library,
                  applied: seq<Opcode>, ghost repo0: Repo)
    returns (all: seq<Opcode>)
    requires backend.pijul.Repository() == Run(ApplyLogged, repo0, JobsOf(applied, libs)).0
    modifies queue, backend.pijul
    ensures backend.pijul.Repository() == Run(ApplyLogged, repo0, JobsOf(all, libs)).0
    ensures all + queue.queue == applied + (old(queue.queue) + arrived)
  {
    var popped := PollOnce(queue, backend, arrived, libs(|applied|));
    all := applied + popped;
    assert all + queue.queue == applied + (popped + queue.queue);
    if popped == [] {
      assert all == applied;
    } else {
      assert popped == [popped[0]];
      OneMoreJob(repo0, applied, popped[0], libs);
    }
  }

  lemma OneRoundMore(first: seq<Opcode>, arrivals: seq<seq<Opcode>>, n: nat, applied: seq<Opcode>, queue: seq<Opcode>,
                     all: seq<Opcode>, rest: seq<Opcode>)
    requires n < |arrivals|
    requires applied + queue == first + Concat(arrivals[..n]) && all + rest == applied + (queue + arrivals[n])
    ensures all + rest == first + Concat(arrivals[..n + 1])
  {
    assert arrivals[..n + 1] == arrivals[..n] + [arrivals[n]];
    ConcatSnoc(arrivals[..n], arrivals[n]);
    assert applied + (queue + arrivals[n]) == (applied + queue) + arrivals[n];
    assert first + (Concat(arrivals[..n]) + arrivals[n]) == first + Concat(arrivals[..n]) + arrivals[n];
  }

  // running[i] is the flag as read before round i, arrivals[i] what the other threads
  // have enqueued since the round before. The backend opens, or the thread gives up.
  //
  // What was applied is a prefix of all there was to apply, in order; the rest is still
  // queued; and the repository is the one those operations make, failures skipped, its
  // log telling exactly the changes they were answered with.
  method ConsumeOpcodes(queue: OpcodeQueue, backend: OpcodeRecordingBackend, opens: bool,
                        running: seq<bool>, arrivals: seq<seq<Opcode>>, libs: nat -> Library)
    returns (applied: seq<Opcode>, rounds: nat)
    requires |arrivals| == |running|
    modifies queue, backend.pijul
    ensures rounds <= |running| && (forall i | 0 <= i < rounds :: running[i])
    ensures opens && rounds < |running| ==> !running[rounds]
    ensures applied + queue.queue == old(queue.queue) + Concat(arrivals[..rounds])
    ensures var (repo, answers) := Run(ApplyLogged, old(backend.pijul.Repository()), JobsOf(applied, libs));
            && backend.pijul.Repository() == repo
            && backend.pijul.log == old(backend.pijul.log) + SomeHashes(answers)
  {
    applied, rounds := [], 0;
    ghost var repo0 := backend.pijul.Repository();
    if !opens {
      LogGrowsByHashes(repo0, []);
      return;
    }
    while rounds < |running| && running[rounds]
      invariant rounds <= |running| && forall i | 0 <= i < rounds :: running[i]
      invariant applied + queue.queue == old(queue.queue) + Concat(arrivals[..rounds])
      invariant backend.pijul.Repository() == Run(ApplyLogged, repo0, JobsOf(applied, libs)).0
    {
      ghost var before, was := applied, queue.queue;
      applied := ApplyOne(queue, backend, arrivals[rounds], libs, applied, repo0);
      OneRoundMore(old(queue.queue), arrivals, rounds, before, was, applied, queue.queue);
      rounds := rounds + 1;
    }
    LogGrowsByHashes(repo0, JobsOf(applied, libs));
  }
}
