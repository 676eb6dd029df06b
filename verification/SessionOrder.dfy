/** What a whole session reads, signs and posts, and in which order (src/run.rs). */
module SessionOrder {
  import opened Text
  import opened Json
  import opened Protocol
  import opened StreamJob
  import opened Session
  import opened SessionLog
  import opened SessionProperties
  import Base58

  /** Is the next message one that the job loop goes on after? */
  predicate GoesOn(p: Plan, i: nat, patience: nat)
    requires i <= |p.inbox|
  {
    patience > 0 && i < |p.inbox| && !p.inbox[i].Closing? && !p.inbox[i].Failing?
  }

  // -------------------------------------------------------------------------- receptions

  lemma HearsHearing(inbox: seq<Incoming>, i: nat, j: nat)
    requires i <= j <= |inbox|
    ensures Hears(Hearing(inbox, i, j), inbox, i, j)
  {
    CollectAll(Hearing(inbox, i, j), MessageOf, inbox[i..j]);
  }

  lemma HearsThen(did: seq<Act>, rest: seq<Act>, inbox: seq<Incoming>, i: nat, j: nat, n: nat)
    requires i <= j <= n <= |inbox| && Hears(did, inbox, i, j) && Hears(rest, inbox, j, n)
    ensures Hears(did + rest, inbox, i, n)
  {
    CollectConcat(did, rest, MessageOf);
  }

  lemma HearsNothing(acts: seq<Act>, inbox: seq<Incoming>, i: nat)
    requires i <= |inbox| && forall k :: 0 <= k < |acts| ==> !acts[k].Received?
    ensures Hears(acts, inbox, i, i)
  {
    CollectNone(acts, MessageOf);
  }

  /** Doing a job after receiving it reads that one message. */
  lemma HearsJob(p: Plan, i: nat, k: nat, room: nat)
    requires i < |p.inbox| && TakesJob(p, i)
    ensures Hears([Received(p.inbox[i])] + JobActs(p, JobAt(p, i), k, room), p.inbox, i, i + 1)
  {
    CollectNone(JobActs(p, JobAt(p, i), k, room), MessageOf);
    CollectCons(Received(p.inbox[i]), JobActs(p, JobAt(p, i), k, room), MessageOf);
  }

  lemma HearsOne(p: Plan, i: nat)
    requires i < |p.inbox|
    ensures Hears([Received(p.inbox[i])], p.inbox, i, i + 1)
  {
    CollectAll([Received(p.inbox[i])], MessageOf, [p.inbox[i]]);
  }

  lemma WorkHearsEnd(p: Plan, i: nat, patience: nat, k: nat, room: nat)
    requires i <= |p.inbox| && !GoesOn(p, i, patience)
    ensures var c := WorkCourse(p, i, patience, k, room);
            Hears(c.acts, p.inbox, i, c.next)
  {
    HearsNothing([], p.inbox, i);
    HearsNothing([Sent(Close)], p.inbox, i);
    if patience > 0 && i < |p.inbox| { HearsOne(p, i); }
  }

  lemma WorkHearsSkip(p: Plan, i: nat, patience: nat, k: nat, room: nat)
    requires i < |p.inbox| && GoesOn(p, i, patience) && !TakesJob(p, i)
    requires var rest := WorkCourse(p, i + 1, patience - 1, k, room);
             Hears(rest.acts, p.inbox, i + 1, rest.next)
    ensures var c := WorkCourse(p, i, patience, k, room);
            Hears(c.acts, p.inbox, i, c.next)
  {
    var rest := WorkCourse(p, i + 1, patience - 1, k, room);
    HearsOne(p, i);
    HearsThen([Received(p.inbox[i])], rest.acts, p.inbox, i, i + 1, rest.next);
  }

  lemma WorkHearsJob(p: Plan, i: nat, patience: nat, k: nat, room: nat, owed: nat)
    requires i < |p.inbox| && GoesOn(p, i, patience) && TakesJob(p, i)
    requires owed == |p.answer(k, JobAt(p, i).jobId)|
    requires owed <= room ==>
               var rest := WorkCourse(p, i + 1, patience - 1, k + 1, room - owed);
               Hears(rest.acts, p.inbox, i + 1, rest.next)
    ensures var c := WorkCourse(p, i, patience, k, room);
            Hears(c.acts, p.inbox, i, c.next)
  {
    var did := [Received(p.inbox[i])] + JobActs(p, JobAt(p, i), k, room);
    HearsJob(p, i, k, room);
    if owed <= room {
      var rest := WorkCourse(p, i + 1, patience - 1, k + 1, room - owed);
      HearsThen(did, rest.acts, p.inbox, i, i + 1, rest.next);
    }
  }

  lemma {:induction false} WorkHears(p: Plan, i: nat, patience: nat, k: nat, room: nat)
    requires i <= |p.inbox|
    ensures var c := WorkCourse(p, i, patience, k, room);
            Hears(c.acts, p.inbox, i, c.next)
    decreases |p.inbox| - i
  {
    if !GoesOn(p, i, patience) {
      WorkHearsEnd(p, i, patience, k, room);
    } else if !TakesJob(p, i) {
      WorkHears(p, i + 1, patience - 1, k, room);
      WorkHearsSkip(p, i, patience, k, room);
    } else {
      var owed := |p.answer(k, JobAt(p, i).jobId)|;
      if owed <= room {
        WorkHears(p, i + 1, patience - 1, k + 1, room - owed);
      }
      WorkHearsJob(p, i, patience, k, room, owed);
    }
  }

  lemma ReadyHears(p: Plan, i: nat, room: nat)
    requires i <= |p.inbox|
    ensures var c := ReadyCourse(p, i, room);
            Hears(c.acts, p.inbox, i, c.next)
  {
    var w := Await(p.inbox, i, true, p.frame);
    HearsHearing(p.inbox, i, w.next);
    if w.Got? {
      var rest := WorkCourse(p, w.next, p.patience, 0, room);
      WorkHears(p, w.next, p.patience, 0, room);
      HearsThen(Hearing(p.inbox, i, w.next), rest.acts, p.inbox, i, w.next, rest.next);
    }
  }

  lemma AuthHears(p: Plan, node: Node, nonce: seq<byte>, i: nat, room: nat)
    requires i <= |p.inbox|
    ensures var c := AuthCourse(p, node, nonce, i, room);
            Hears(c.acts, p.inbox, i, c.next)
  {
    if room == 0 {
      HearsNothing([Signed(AuthMessage(nonce))], p.inbox, i);
    } else {
      var rest := ReadyCourse(p, i, room - 1);
      ReadyHears(p, i, room - 1);
      HearsNothing([Signed(AuthMessage(nonce)), Sent(AuthFrame(node, nonce))], p.inbox, i);
      HearsThen([Signed(AuthMessage(nonce)), Sent(AuthFrame(node, nonce))], rest.acts, p.inbox, i, i, rest.next);
    }
  }

  /** What a session receives is what arrived, from the first message up to the last one
      read. */
  lemma SessionHears(p: Plan, node: Node, room: nat)
    ensures var c := SessionCourse(p, node, room);
            Hears(c.acts, p.inbox, 0, c.next)
  {
    var w := Await(p.inbox, 0, false, p.frame);
    HearsHearing(p.inbox, 0, w.next);
    if w.Got? {
      var nonce := Base58.ValidateNonce(w.nonce);
      if nonce.Ok? {
        var rest := AuthCourse(p, node, nonce.bytes, w.next, room);
        AuthHears(p, node, nonce.bytes, w.next, room);
        HearsThen(Hearing(p.inbox, 0, w.next), rest.acts, p.inbox, 0, w.next, rest.next);
      }
    }
  }

  // ------------------------------------------------------------------------------ posts

  /** The jobs as they are to be posted: each with its own id and its own body, cleaned. */
  function Handed(p: Plan, jobs: seq<ServerFrame>): (posts: seq<(string, Value)>)
    requires forall job :: job in jobs ==> job.Job?
    ensures |posts| == |jobs|
  {
    seq(|jobs|, k requires 0 <= k < |jobs| => (jobs[k].jobId, p.clean(jobs[k].body)))
  }

  /** How many of the jobs are started before the socket is found dead. */
  function Started(p: Plan, jobs: seq<ServerFrame>, k: nat, room: nat): (n: nat)
    requires forall job :: job in jobs ==> job.Job?
    ensures n <= |jobs|
  {
    if jobs == [] then 0
    else
      var owed := |p.answer(k, jobs[0].jobId)|;
      if owed > room then 1 else 1 + Started(p, jobs[1..], k + 1, room - owed)
  }

  /** All of them, unless the blocks are more than it takes. */
  lemma {:induction false} StartedAll(p: Plan, jobs: seq<ServerFrame>, k: nat, room: nat)
    requires forall job :: job in jobs ==> job.Job?
    ensures |JobBlocks(p, jobs, k)| <= room ==> Started(p, jobs, k, room) == |jobs|
    decreases |jobs|
  {
    if jobs != [] {
      assert jobs == [jobs[0]] + jobs[1..];
      JobBlocksCons(p, jobs[0], jobs[1..], k);
      var owed := |p.answer(k, jobs[0].jobId)|;
      if owed <= room {
        StartedAll(p, jobs[1..], k + 1, room - owed);
      }
    }
  }

  ghost predicate Posts(acts: seq<Act>, p: Plan, jobs: seq<ServerFrame>, n: nat)
    requires n <= |jobs| && forall job :: job in jobs ==> job.Job?
  {
    Collect(acts, PostOf) == Handed(p, jobs)[..n]
  }

  lemma PostsNothing(acts: seq<Act>, p: Plan, jobs: seq<ServerFrame>)
    requires (forall job :: job in jobs ==> job.Job?) && forall k :: 0 <= k < |acts| ==> !acts[k].Posted?
    ensures Posts(acts, p, jobs, 0)
  {
    CollectNone(acts, PostOf);
  }

  lemma PostsAfter(did: seq<Act>, rest: seq<Act>, p: Plan, jobs: seq<ServerFrame>, n: nat)
    requires n <= |jobs| && forall job :: job in jobs ==> job.Job?
    requires (forall k :: 0 <= k < |did| ==> !did[k].Posted?) && Posts(rest, p, jobs, n)
    ensures Posts(did + rest, p, jobs, n)
  {
    CollectNone(did, PostOf);
    CollectConcat(did, rest, PostOf);
    assert [] + Handed(p, jobs)[..n] == Handed(p, jobs)[..n];
  }

  lemma PostsJob(p: Plan, job: ServerFrame, k: nat, room: nat, message: Incoming)
    requires job.Job?
    ensures Collect([Received(message)] + JobActs(p, job, k, room), PostOf) == [(job.jobId, p.clean(job.body))]
  {
    var sent := Acts(Cut(p.answer(k, job.jobId), room));
    CollectNone(sent, PostOf);
    CollectCons(Posted(job.jobId, p.clean(job.body)), sent, PostOf);
    CollectCons(Received(message), JobActs(p, job, k, room), PostOf);
  }

  lemma PostsFirst(did: seq<Act>, rest: seq<Act>, p: Plan, job: ServerFrame, jobs: seq<ServerFrame>, n: nat)
    requires job.Job? && n <= |jobs| && forall job :: job in jobs ==> job.Job?
    requires Collect(did, PostOf) == [(job.jobId, p.clean(job.body))]
    ensures Posts(did, p, [job] + jobs, 1)
    ensures Posts(rest, p, jobs, n) ==> Posts(did + rest, p, [job] + jobs, n + 1)
  {
    CollectConcat(did, rest, PostOf);
    assert Handed(p, [job] + jobs) == [(job.jobId, p.clean(job.body))] + Handed(p, jobs);
  }

  lemma WorkPostsJob(p: Plan, i: nat, patience: nat, k: nat, room: nat, owed: nat)
    requires i < |p.inbox| && GoesOn(p, i, patience) && TakesJob(p, i) && owed == |p.answer(k, JobAt(p, i).jobId)|
    requires var jobs := Jobs(p, i + 1, patience - 1);
             owed <= room ==> Posts(WorkCourse(p, i + 1, patience - 1, k + 1, room - owed).acts, p, jobs,
                                    Started(p, jobs, k + 1, room - owed))
    ensures var jobs := Jobs(p, i, patience);
            Posts(WorkCourse(p, i, patience, k, room).acts, p, jobs, Started(p, jobs, k, room))
  {
    var job, jobs := JobAt(p, i), Jobs(p, i + 1, patience - 1);
    var did := [Received(p.inbox[i])] + JobActs(p, job, k, room);
    PostsJob(p, job, k, room, p.inbox[i]);
    assert ([job] + jobs)[1..] == jobs;
    if owed <= room {
      var rest := WorkCourse(p, i + 1, patience - 1, k + 1, room - owed);
      PostsFirst(did, rest.acts, p, job, jobs, Started(p, jobs, k + 1, room - owed));
    } else {
      PostsFirst(did, [], p, job, jobs, 0);
    }
  }

  lemma WorkPostsSkip(p: Plan, i: nat, patience: nat, k: nat, room: nat)
    requires i < |p.inbox| && GoesOn(p, i, patience) && !TakesJob(p, i)
    requires var jobs := Jobs(p, i + 1, patience - 1);
             Posts(WorkCourse(p, i + 1, patience - 1, k, room).acts, p, jobs, Started(p, jobs, k, room))
    ensures var jobs := Jobs(p, i, patience);
            Posts(WorkCourse(p, i, patience, k, room).acts, p, jobs, Started(p, jobs, k, room))
  {
    var jobs, rest := Jobs(p, i + 1, patience - 1), WorkCourse(p, i + 1, patience - 1, k, room);
    PostsAfter([Received(p.inbox[i])], rest.acts, p, jobs, Started(p, jobs, k, room));
  }

  lemma {:induction false} WorkPosts(p: Plan, i: nat, patience: nat, k: nat, room: nat)
    requires i <= |p.inbox|
    ensures var jobs := Jobs(p, i, patience);
            Posts(WorkCourse(p, i, patience, k, room).acts, p, jobs, Started(p, jobs, k, room))
    decreases |p.inbox| - i
  {
    if !GoesOn(p, i, patience) {
      PostsNothing(WorkCourse(p, i, patience, k, room).acts, p, []);
    } else if !TakesJob(p, i) {
      WorkPosts(p, i + 1, patience - 1, k, room);
      WorkPostsSkip(p, i, patience, k, room);
    } else {
      var owed := |p.answer(k, JobAt(p, i).jobId)|;
      if owed <= room {
        WorkPosts(p, i + 1, patience - 1, k + 1, room - owed);
      }
      WorkPostsJob(p, i, patience, k, room, owed);
    }
  }

  /** The jobs that a session takes up. */
  function SessionJobs(p: Plan): (jobs: seq<ServerFrame>)
    ensures forall job :: job in jobs ==> job.Job?
  {
    match Await(p.inbox, 0, false, p.frame)
    case Got(nonce, i) =>
      if !Base58.ValidateNonce(nonce).Ok? then []
      else (match Await(p.inbox, i, true, p.frame)
            case Got(_, j) => Jobs(p, j, p.patience)
            case _ => [])
    case _ => []
  }

  /** How many of them are started: none if the auth frame does not get through. */
  function SessionStarted(p: Plan, room: nat): (n: nat)
    ensures n <= |SessionJobs(p)|
  {
    if room == 0 then 0 else Started(p, SessionJobs(p), 0, room - 1)
  }

  lemma ReadyPosts(p: Plan, i: nat, room: nat)
    requires i <= |p.inbox|
    ensures var w := Await(p.inbox, i, true, p.frame);
            var jobs := if w.Got? then Jobs(p, w.next, p.patience) else [];
            Posts(ReadyCourse(p, i, room).acts, p, jobs, Started(p, jobs, 0, room))
  {
    var w := Await(p.inbox, i, true, p.frame);
    PostsNothing(Hearing(p.inbox, i, w.next), p, []);
    if w.Got? {
      var jobs, rest := Jobs(p, w.next, p.patience), WorkCourse(p, w.next, p.patience, 0, room);
      WorkPosts(p, w.next, p.patience, 0, room);
      PostsAfter(Hearing(p.inbox, i, w.next), rest.acts, p, jobs, Started(p, jobs, 0, room));
    }
  }

  lemma AuthPosts(p: Plan, node: Node, nonce: seq<byte>, i: nat, room: nat)
    requires i <= |p.inbox|
    ensures var w := Await(p.inbox, i, true, p.frame);
            var jobs := if w.Got? then Jobs(p, w.next, p.patience) else [];
            Posts(AuthCourse(p, node, nonce, i, room).acts, p, jobs,
                  if room == 0 then 0 else Started(p, jobs, 0, room - 1))
  {
    var w := Await(p.inbox, i, true, p.frame);
    var jobs := if w.Got? then Jobs(p, w.next, p.patience) else [];
    var signed, auth := Signed(AuthMessage(nonce)), Sent(AuthFrame(node, nonce));
    if room == 0 {
      PostsNothing([signed], p, jobs);
    } else {
      ReadyPosts(p, i, room - 1);
      PostsAfter([signed, auth], ReadyCourse(p, i, room - 1).acts, p, jobs, Started(p, jobs, 0, room - 1));
    }
  }

  /** What a session posts to the upstream is, in order, the jobs that it takes up, each with
      its own id and its own body; all of them, unless the socket dies. */
  lemma SessionPosts(p: Plan, node: Node, room: nat)
    ensures Posts(SessionCourse(p, node, room).acts, p, SessionJobs(p), SessionStarted(p, room))
    ensures 1 + |JobBlocks(p, SessionJobs(p), 0)| <= room ==> SessionStarted(p, room) == |SessionJobs(p)|
  {
    var w := Await(p.inbox, 0, false, p.frame);
    PostsNothing(Hearing(p.inbox, 0, w.next), p, SessionJobs(p));
    if room > 0 {
      StartedAll(p, SessionJobs(p), 0, room - 1);
    }
    if w.Got? {
      var nonce := Base58.ValidateNonce(w.nonce);
      if nonce.Ok? {
        var rest := AuthCourse(p, node, nonce.bytes, w.next, room);
        AuthPosts(p, node, nonce.bytes, w.next, room);
        PostsAfter(Hearing(p.inbox, 0, w.next), rest.acts, p, SessionJobs(p), SessionStarted(p, room));
      }
    }
  }

  // ------------------------------------------------------------------------------ order

  lemma WorkOrderedThen(did: seq<Act>, rest: seq<Act>, p: Plan)
    requires WorkOrdered(did, p) && WorkOrdered(rest, p)
    ensures WorkOrdered(did + rest, p)
  {
    var acts := did + rest;
    forall i | 0 <= i < |acts| && acts[i].Posted? ensures Handover(acts, i, p) {
      if i < |did| {
        assert Handover(did, i, p);
      } else {
        assert Handover(rest, i - |did|, p);
      }
    }
  }

  lemma JobOrdered(p: Plan, i: nat, k: nat, room: nat)
    requires i < |p.inbox| && TakesJob(p, i)
    ensures WorkOrdered([Received(p.inbox[i])] + JobActs(p, JobAt(p, i), k, room), p)
  {
  }

  lemma {:induction false} WorkInOrder(p: Plan, i: nat, patience: nat, k: nat, room: nat)
    requires i <= |p.inbox|
    ensures WorkOrdered(WorkCourse(p, i, patience, k, room).acts, p)
    decreases |p.inbox| - i
  {
    if GoesOn(p, i, patience) {
      if !TakesJob(p, i) {
        WorkInOrder(p, i + 1, patience - 1, k, room);
        WorkOrderedThen([Received(p.inbox[i])], WorkCourse(p, i + 1, patience - 1, k, room).acts, p);
      } else {
        var owed := |p.answer(k, JobAt(p, i).jobId)|;
        JobOrdered(p, i, k, room);
        if owed <= room {
          var did := [Received(p.inbox[i])] + JobActs(p, JobAt(p, i), k, room);
          WorkInOrder(p, i + 1, patience - 1, k + 1, room - owed);
          WorkOrderedThen(did, WorkCourse(p, i + 1, patience - 1, k + 1, room - owed).acts, p);
        }
      }
    }
  }

  lemma {:induction false} AwaitedReady(p: Plan, i: nat)
    requires i <= |p.inbox| && Await(p.inbox, i, true, p.frame).Got?
    ensures var j := Await(p.inbox, i, true, p.frame).next;
            IsReady(Received(p.inbox[j - 1]), p)
    decreases |p.inbox| - i
  {
    if !(p.inbox[i].Text? && p.frame(p.inbox[i].txt) == Some(Ready)) {
      AwaitedReady(p, i + 1);
    }
  }

  lemma PartsOrdered(p: Plan, heard: seq<Act>, bytes: seq<byte>, auth: ClientFrame, rest: seq<Act>, waited: seq<Act>,
      work: seq<Act>)
    requires rest == waited + work
    requires forall i :: 0 <= i < |heard| ==> heard[i].Received?
    requires forall i :: 0 <= i < |waited| ==> waited[i].Received?
    requires WorkOrdered(work, p) && (work != [] ==> waited != [] && IsReady(waited[|waited| - 1], p))
    requires SignsChallenge(heard + [Signed(bytes)], |heard|, p)
    ensures Ordered(heard + ([Signed(bytes), Sent(auth)] + rest), p)
  {
    var n, acts := |heard|, heard + ([Signed(bytes), Sent(auth)] + rest);
    var from := n + 2 + |waited|;
    assert acts[n] == Signed(bytes) && acts[..n] == heard == (heard + [Signed(bytes)])[..n];
    forall i | 0 <= i < |acts|
      ensures acts[i].Signed? ==> SignsChallenge(acts, i, p)
      ensures acts[i].Posted? ==> Handover(acts, i, p) && AfterReady(acts, i, p)
    {
      if i >= from {
        assert acts[i] == work[i - from] && acts[from - 1] == waited[|waited| - 1];
        if acts[i].Posted? {
          assert Handover(work, i - from, p) && acts[i - 1] == work[i - from - 1];
          assert acts[n].Signed? && IsReady(acts[from - 1], p);
        }
      }
    }
  }

  lemma SignsValid(p: Plan, nonce: seq<byte>)
    requires var w := Await(p.inbox, 0, false, p.frame);
             w.Got? && Base58.ValidateNonce(w.nonce) == Base58.Ok(nonce)
    ensures var heard := Hearing(p.inbox, 0, Await(p.inbox, 0, false, p.frame).next);
            SignsChallenge(heard + [Signed(AuthMessage(nonce))], |heard|, p)
  {
    var w := Await(p.inbox, 0, false, p.frame);
    Base58.NonceExact(w.nonce, nonce);
    assert (Hearing(p.inbox, 0, w.next) + [Signed(AuthMessage(nonce))])[..w.next] == Hearing(p.inbox, 0, w.next);
  }

  lemma OnlySignedOrdered(p: Plan, heard: seq<Act>, bytes: seq<byte>)
    requires (forall i :: 0 <= i < |heard| ==> heard[i].Received?)
            && SignsChallenge(heard + [Signed(bytes)], |heard|, p)
    ensures Ordered(heard + [Signed(bytes)], p)
  {
  }

  /** What comes after the auth frame: waiting, and then, if the wait ends with readiness,
      the job loop. */
  lemma ReadyParts(p: Plan, i: nat, room: nat) returns (waited: seq<Act>, work: seq<Act>)
    requires i <= |p.inbox|
    ensures ReadyCourse(p, i, room).acts == waited + work && WorkOrdered(work, p)
    ensures forall k :: 0 <= k < |waited| ==> waited[k].Received?
    ensures work != [] ==> waited != [] && IsReady(waited[|waited| - 1], p)
  {
    var ready := Await(p.inbox, i, true, p.frame);
    waited, work := Hearing(p.inbox, i, ready.next), [];
    if ready.Got? {
      work := WorkCourse(p, ready.next, p.patience, 0, room).acts;
      WorkInOrder(p, ready.next, p.patience, 0, room);
      AwaitedReady(p, i);
      assert waited[|waited| - 1] == Received(p.inbox[ready.next - 1]);
    }
  }

  lemma SentSessionOrdered(p: Plan, heard: seq<Act>, bytes: seq<byte>, auth: ClientFrame, i: nat, room: nat)
    requires i <= |p.inbox| && forall k :: 0 <= k < |heard| ==> heard[k].Received?
    requires SignsChallenge(heard + [Signed(bytes)], |heard|, p)
    ensures Ordered(heard + ([Signed(bytes), Sent(auth)] + ReadyCourse(p, i, room).acts), p)
  {
    var waited, work := ReadyParts(p, i, room);
    PartsOrdered(p, heard, bytes, auth, ReadyCourse(p, i, room).acts, waited, work);
  }

  lemma SignedSessionOrdered(p: Plan, node: Node, nonce: seq<byte>, heard: seq<Act>, i: nat, room: nat)
    requires i <= |p.inbox| && forall k :: 0 <= k < |heard| ==> heard[k].Received?
    requires SignsChallenge(heard + [Signed(AuthMessage(nonce))], |heard|, p)
    ensures Ordered(heard + AuthCourse(p, node, nonce, i, room).acts, p)
  {
    if room == 0 {
      OnlySignedOrdered(p, heard, AuthMessage(nonce));
    } else {
      SentSessionOrdered(p, heard, AuthMessage(nonce), AuthFrame(node, nonce), i, room - 1);
    }
  }

  lemma HeardOrdered(inbox: seq<Incoming>, i: nat, p: Plan)
    requires i <= |inbox|
    ensures Ordered(Hearing(inbox, 0, i), p)
  {
  }

  /** The order of things in every session. Something is signed at most once: what the first
      challenge that arrived asks for, after reading up to it and nothing further. A job is
      posted only after that, after readiness arrived, and directly after it was received. */
  lemma SessionInOrder(p: Plan, node: Node, room: nat)
    ensures Ordered(SessionCourse(p, node, room).acts, p)
  {
    var w := Await(p.inbox, 0, false, p.frame);
    HeardOrdered(p.inbox, w.next, p);
    if w.Got? {
      var nonce := Base58.ValidateNonce(w.nonce);
      if nonce.Ok? {
        SignsValid(p, nonce.bytes);
        SignedSessionOrdered(p, node, nonce.bytes, Hearing(p.inbox, 0, w.next), w.next, room);
      }
    }
  }

  /** The auth frame answers the gateway's own challenge: anything is sent only if the first
      challenge is the base58 text of 32 bytes, and then first the auth frame that is signed
      over those bytes behind the domain tag. */
  lemma AuthAnswersChallenge(p: Plan, node: Node)
    ensures var w := Await(p.inbox, 0, false, p.frame);
            && (SessionFrames(p, node) != [] <==>
                  w.Got? && exists nonce :: |nonce| == 32 && w.nonce == Base58.Encode(nonce))
            && forall nonce :: w.Got? && |nonce| == 32 && w.nonce == Base58.Encode(nonce) ==>
                 && SessionFrames(p, node) != []
                 && SessionFrames(p, node)[0]
                    == Auth(node.pubkey, node.walletPubkey, node.model, node.sign(AUTH_DOMAIN_TAG + nonce))
  {
    var w := Await(p.inbox, 0, false, p.frame);
    if w.Got? {
      forall nonce | |nonce| == 32 && w.nonce == Base58.Encode(nonce)
        ensures SessionFrames(p, node) != []
        ensures SessionFrames(p, node)[0]
                == Auth(node.pubkey, node.walletPubkey, node.model, node.sign(AUTH_DOMAIN_TAG + nonce))
      {
        Base58.NonceExact(w.nonce, nonce);
      }
      if Base58.ValidateNonce(w.nonce).Ok? {
        Base58.NonceExact(w.nonce, Base58.ValidateNonce(w.nonce).bytes);
      }
    }
  }
}
