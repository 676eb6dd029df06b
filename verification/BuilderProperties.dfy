/** What every run of the Builder driver keeps, whatever the other side answers. */
module BuilderProperties {
  import opened Text
  import opened Json
  import opened Builder
  import Base58
  import Crypto

  /** What each action says about the snapshot: its phase and its status. */
  lemma {:induction false} ActionsBySnapshot(snap: Value)
    ensures TurnOf(snap) == Go("approve_spec")
            <==> snap.GetStr("phase") == Some("brainstorm") && snap.GetStr("status") == Some("waiting_approval")
    ensures TurnOf(snap) == Go("approve_plan")
            <==> snap.GetStr("phase") == Some("plan") && snap.GetStr("status") == Some("waiting_approval")
    ensures TurnOf(snap) == Go("next_task")
            <==> snap.GetStr("phase") == Some("execute") && snap.GetStr("status") == Some("waiting_user")
    ensures TurnOf(snap).Finished? <==> snap.GetStr("status") == Some("done")
    ensures TurnOf(snap).Finished? ==>
              if snap.Get("files").Some? then snap.Get("files") == Some(TurnOf(snap).files)
              else TurnOf(snap).files == Null
    ensures TurnOf(snap).Broken? <==> snap.GetStr("status") == Some("error")
    ensures TurnOf(snap).Go? ==> TurnOf(snap).action in {"approve_spec", "approve_plan", "next_task"}
  {
  }

  lemma {:induction false} At(t: seq<Step>, m: Mission, k: nat)
    requires Protocol(t, m) && k < |t|
    ensures Protocol(t[..k], m) && Follows(t[..k], t[k], m)
  {
    var n := |t| - 1;
    if k < n {
      At(t[..n], m, k);
      assert t[..n][..k] == t[..k] && t[..n][k] == t[k];
    }
  }

  lemma {:induction false} AtLoop(t: seq<Step>, m: Mission, k: nat)
    requires Protocol(t, m) && 3 <= k < |t|
    ensures t[..k][k - 1] == t[k - 1] && t[..k][2] == t[2] && SessionOf(t[..k]) == SessionOf(t)
    ensures Follows(t[..k], t[k], m)
  {
    At(t, m, k);
  }

  lemma {:induction false} TwoBack(t: seq<Step>, m: Mission, k: nat)
    requires Protocol(t, m) && 3 <= k < |t| && IsAdvance(t[k]) && IsTier(t[k - 1])
    ensures Answered(t[k - 1]) && Shows(t[k - 2], Go(t[k].request.action))
  {
    AtLoop(t, m, k);
    assert t[..k][k - 2] == t[k - 2];
  }

  /** What precedes each step of the loop. */
  lemma {:induction false} Before(t: seq<Step>, m: Mission, k: nat)
    requires Protocol(t, m) && 3 <= k < |t|
    ensures t[k].Nap? ==> Shows(t[k - 1], Wait) && t[k].done >= t[k].at + 2 * SECOND
    ensures IsStatus(t[k]) ==>
              && Elapsed(t, t[k].at) < m.budget
              && (k == 3 || t[k - 1].Nap? || (IsAdvance(t[k - 1]) && Answered(t[k - 1])))
    ensures IsTier(t[k]) ==> t[k].request.tier == "community" && Shows(t[k - 1], Go("approve_plan"))
    ensures IsAdvance(t[k]) && !IsTier(t[k - 1]) ==> Shows(t[k - 1], Go(t[k].request.action))
    ensures t[k].Call? && t[k].request.Promote? ==>
              IsStatus(t[k - 1]) && t[k - 1].reply.Some? && TurnOf(t[k - 1].reply.value).Finished?
    ensures t[k].Call? ==> t[k].request.Status? || IsTier(t[k]) || IsAdvance(t[k]) || t[k].request.Promote?
    ensures t[k].Call? ==> SessionOf(t) == Some(t[k].request.sid)
    ensures t[k - 1].done <= t[k].at <= t[k].done
  {
    AtLoop(t, m, k);
  }

  /** The first three calls, and nothing but loop steps after them. */
  lemma {:induction false} Opening(t: seq<Step>, m: Mission, k: nat)
    requires Protocol(t, m) && k < |t|
    ensures k == 0 ==> t[k].Call? && t[k].request == AuthChallenge(m.pubkey)
    ensures k == 1 ==> t[k].Call? && t[k].request.AuthVerify? && t[k].request.pubkey == m.pubkey
                       && MessageOf(t[0]) == Some(t[k].request.message)
                       && Base58.Decode(t[k].request.signature) == Some(m.sign(Utf8(t[k].request.message)))
    ensures k == 2 ==> t[k].Call? && t[k].request == Create(m.parcelUid, m.brief)
    ensures k < 3 ==> t[k].Call? && !IsTier(t[k]) && !IsAdvance(t[k]) && !IsStatus(t[k])
  {
    At(t, m, k);
    if k == 1 {
      SignatureCovers(t[k].request.message, m.sign);
    }
  }

  lemma {:induction false} VerifiesChallenge(t: seq<Step>, m: Mission)
    requires Protocol(t, m) && |t| > 1
    ensures Verifies(t[1], t[0], m)
  {
    Opening(t, m, 0);
    Opening(t, m, 1);
    AccessorsExact(t[0].reply.value, "message");
  }

  /** The first three calls in full: the challenge for the key, the message of its reply with a
      signature over the bytes of that message, and, unless that was refused, the parcel and
      the brief. */
  lemma {:induction false} OpeningMeans(t: seq<Step>, m: Mission)
    requires Protocol(t, m)
    ensures |t| > 0 ==> t[0].Call? && t[0].request == AuthChallenge(m.pubkey)
    ensures |t| > 1 ==> Verifies(t[1], t[0], m)
    ensures |t| > 2 ==> t[1].reply.Some? && !Holds(t[1].reply.value, "authenticated", Bool(false))
    ensures |t| > 2 ==> t[2].Call? && t[2].request == Create(m.parcelUid, m.brief)
  {
    if |t| > 0 {
      Opening(t, m, 0);
    }
    if |t| > 1 {
      VerifiesChallenge(t, m);
    }
    if |t| > 2 {
      At(t, m, 2);
      AccessorsExact(t[1].reply.value, "authenticated");
    }
  }

  predicate ForSession(request: Request, sid: string) {
    || request == Status(sid)
    || request == Tier(sid, "community")
    || (request.Advance? && request.sid == sid)
    || request == Promote(sid)
  }

  /** After that nothing is called but for the session that was opened, and the only tier is
      `community`. */
  lemma {:induction false} SessionMeans(t: seq<Step>, m: Mission, k: nat) returns (sid: string)
    requires Protocol(t, m) && 3 <= k < |t| && t[k].Call?
    ensures t[2].Call? && t[2].reply.Some? && Holds(t[2].reply.value, "session_id", Str(sid))
    ensures ForSession(t[k].request, sid)
  {
    Before(t, m, k);
    AccessorsExact(t[2].reply.value, "session_id");
    sid := t[k].request.sid;
  }

  /** Only the last call of a run can have failed. */
  lemma {:induction false} FailureIsLast(t: seq<Step>, m: Mission, k: nat)
    requires Protocol(t, m) && k < |t| && !Answered(t[k])
    ensures k == |t| - 1
  {
    if k + 1 < |t| {
      At(t, m, k + 1);
    }
  }

  lemma {:induction false} NoTierBefore(t: seq<Step>, m: Mission, j: nat)
    requires Protocol(t, m) && j < |t| && IsTier(t[j])
    ensures j >= 3 && forall i :: 0 <= i < j ==> !IsTier(t[i])
  {
    Opening(t, m, j);
    AtLoop(t, m, j);
    forall i | 0 <= i < j ensures !IsTier(t[i]) {
      assert t[..j][i] == t[i];
    }
  }

  /** The tier is set at most once. */
  lemma {:induction false} TierOnce(t: seq<Step>, m: Mission, i: nat, j: nat)
    requires Protocol(t, m) && i < |t| && j < |t| && IsTier(t[i]) && IsTier(t[j])
    ensures i == j
  {
    NoTierBefore(t, m, i);
    NoTierBefore(t, m, j);
  }

  /** It is set to `community`, right after a snapshot of a plan that waits for approval,
      and the next step, if the call succeeded, is the approval of that plan. */
  lemma {:induction false} TierPlacement(t: seq<Step>, m: Mission, i: nat)
    requires Protocol(t, m) && i < |t| && IsTier(t[i])
    ensures i >= 4 && t[i].request.tier == "community" && Shows(t[i - 1], Go("approve_plan"))
    ensures i + 1 < |t| ==> Answered(t[i]) && IsAdvance(t[i + 1]) && t[i + 1].request.action == "approve_plan"
  {
    Opening(t, m, i);
    Before(t, m, i);
    Opening(t, m, i - 1);
    if i + 1 < |t| {
      Before(t, m, i + 1);
      if IsAdvance(t[i + 1]) {
        TwoBack(t, m, i + 1);
      }
    }
  }

  lemma {:induction false} LastStep(t: seq<Step>, r: Outcome, now: nat, m: Mission, show: Value -> string,
      sha: seq<byte> -> Crypto.Digest)
    requires Ended(t, r, now, m, show, sha) && |t| > 3
    ensures IsTier(t[|t| - 1]) ==> !Answered(t[|t| - 1])
  {
  }

  /** A run that has ended after setting the tier has gone on to the approval, unless
      setting the tier failed. */
  lemma {:induction false} TierThenApproval(t: seq<Step>, r: Outcome, now: nat, m: Mission, show: Value -> string,
      sha: seq<byte> -> Crypto.Digest, i: nat)
    requires Protocol(t, m) && Ended(t, r, now, m, show, sha) && i < |t| && IsTier(t[i]) && Answered(t[i])
    ensures i + 1 < |t| && IsAdvance(t[i + 1]) && t[i + 1].request.action == "approve_plan"
  {
    TierPlacement(t, m, i);
    LastStep(t, r, now, m, show, sha);
  }

  lemma {:induction false} ApprovalIsPinned(t: seq<Step>, m: Mission, i: nat)
    requires Protocol(t, m) && 3 <= i < |t| && IsAdvance(t[i]) && t[i].request.action == "approve_plan"
    ensures exists j :: 0 <= j < i && IsTier(t[j])
  {
    if !IsTier(t[i - 1]) {
      AtLoop(t, m, i);
      var j :| 0 <= j < i && IsTier(t[..i][j]);
      assert IsTier(t[j]);
    }
  }

  /** No plan is approved before the tier is set. */
  lemma {:induction false} ApprovalNeedsTier(t: seq<Step>, m: Mission, i: nat)
    requires Protocol(t, m) && i < |t| && IsAdvance(t[i]) && t[i].request.action == "approve_plan"
    ensures exists j :: 0 <= j < i && IsTier(t[j]) && Answered(t[j])
  {
    Opening(t, m, i);
    ApprovalIsPinned(t, m, i);
    var j :| 0 <= j < i && IsTier(t[j]);
    TierPlacement(t, m, j);
  }

  /** Each action matches the latest snapshot. */
  lemma {:induction false} ActionMatchesLatest(t: seq<Step>, m: Mission, i: nat)
    requires Protocol(t, m) && i < |t| && IsAdvance(t[i])
    ensures exists j :: 0 <= j < i && Shows(t[j], Go(t[i].request.action)) && forall l :: j < l < i ==> !IsStatus(t[l])
  {
    Opening(t, m, i);
    if IsTier(t[i - 1]) {
      TwoBack(t, m, i);
      assert Shows(t[i - 2], Go(t[i].request.action)) && !IsStatus(t[i - 1]);
    } else {
      Before(t, m, i);
      assert Shows(t[i - 1], Go(t[i].request.action));
    }
  }

  /** The promotion is the last step of all, and directly follows a snapshot that is done. */
  lemma {:induction false} PromotionIsLast(t: seq<Step>, m: Mission, i: nat)
    requires Protocol(t, m) && i < |t| && t[i].Call? && t[i].request.Promote?
    ensures i == |t| - 1 && i > 3 && IsStatus(t[i - 1]) && t[i - 1].reply.Some?
            && TurnOf(t[i - 1].reply.value).Finished?
  {
    Opening(t, m, i);
    Before(t, m, i);
    Opening(t, m, i - 1);
    if i + 1 < |t| {
      Before(t, m, i + 1);
    }
  }

  /** A status call whose snapshot has this phase and this status. */
  predicate Reports(s: Step, phase: string, status: string) {
    IsStatus(s) && s.reply.Some? && s.reply.value.GetStr("phase") == Some(phase)
        && s.reply.value.GetStr("status") == Some(status)
  }

  /** The snapshot that calls for an action. */
  predicate CallsFor(s: Step, action: string) {
    || (action == "approve_spec" && Reports(s, "brainstorm", "waiting_approval"))
    || (action == "approve_plan" && Reports(s, "plan", "waiting_approval"))
    || (action == "next_task" && Reports(s, "execute", "waiting_user"))
  }

  lemma {:induction false} GoCallsFor(s: Step, action: string)
    requires Shows(s, Go(action))
    ensures CallsFor(s, action)
  {
    ActionsBySnapshot(s.reply.value);
  }

  /** In the words of the snapshots: an action is called for by the phase and the status that
      were reported last. */
  lemma {:induction false} ActionsAreCalledFor(t: seq<Step>, m: Mission, i: nat)
    requires Protocol(t, m) && i < |t| && IsAdvance(t[i])
    ensures exists j :: 0 <= j < i && CallsFor(t[j], t[i].request.action) && forall l :: j < l < i ==> !IsStatus(t[l])
  {
    ActionMatchesLatest(t, m, i);
    var j :| 0 <= j < i && Shows(t[j], Go(t[i].request.action)) && forall l :: j < l < i ==> !IsStatus(t[l]);
    GoCallsFor(t[j], t[i].request.action);
  }

  /** The tier is set right after a plan was reported to wait for approval, and the session is
      promoted right after it was reported done. */
  lemma {:induction false} ReportedBefore(t: seq<Step>, m: Mission, i: nat)
    requires Protocol(t, m) && i < |t| && t[i].Call?
    ensures IsTier(t[i]) ==> i > 0 && Reports(t[i - 1], "plan", "waiting_approval")
    ensures t[i].request.Promote? ==>
              i > 0 && IsStatus(t[i - 1]) && t[i - 1].reply.Some?
                  && t[i - 1].reply.value.GetStr("status") == Some("done")
  {
    if IsTier(t[i]) {
      TierPlacement(t, m, i);
      GoCallsFor(t[i - 1], "approve_plan");
    } else if t[i].request.Promote? {
      PromotionIsLast(t, m, i);
      ActionsBySnapshot(t[i - 1].reply.value);
    }
  }

  // ------------------------------------------------------------------------ the budget

  /** How many of the first `k` steps are sleeps. */
  function Naps(t: seq<Step>, k: nat): nat
    requires k <= |t|
  {
    if k == 0 then 0 else Naps(t, k - 1) + if t[k - 1].Nap? then 1 else 0
  }

  function Calls(t: seq<Step>, k: nat): nat
    requires k <= |t|
  {
    if k == 0 then 0 else Calls(t, k - 1) + if t[k - 1].Call? then 1 else 0
  }

  lemma {:induction false} CountThree(t: seq<Step>)
    requires |t| >= 3 && t[0].Call? && t[1].Call? && t[2].Call?
    ensures Naps(t, 3) == 0 && Calls(t, 3) == 3
  {
    assert Naps(t, 1) == 0 && Calls(t, 1) == 1;
    assert Naps(t, 2) == 0 && Calls(t, 2) == 2;
  }

  lemma {:induction false} FirstThree(t: seq<Step>, m: Mission)
    requires Protocol(t, m) && |t| >= 3
    ensures Naps(t, 3) == 0 && Calls(t, 3) == 3
  {
    Opening(t, m, 0);
    Opening(t, m, 1);
    Opening(t, m, 2);
    CountThree(t);
  }

  lemma {:induction false} NapTime(t: seq<Step>, m: Mission, k: nat)
    requires Protocol(t, m) && 3 <= k <= |t|
    ensures 2 * SECOND * Naps(t, k) <= t[k - 1].done - t[2].done
  {
    if k == 3 {
      FirstThree(t, m);
    } else {
      NapTime(t, m, k - 1);
      Before(t, m, k - 1);
    }
  }

  lemma {:induction false} StillWithin(t: seq<Step>, m: Mission, s: nat)
    requires Protocol(t, m) && 3 <= s < |t| && IsStatus(t[s])
    ensures t[s].at - t[2].done < m.budget * SECOND && t[s - 1].done <= t[s].at
  {
    Before(t, m, s);
  }

  lemma {:induction false} LastNap(t: seq<Step>, m: Mission, k: nat)
    requires Protocol(t, m) && 4 <= k <= |t| && t[k - 1].Nap?
    ensures k >= 5 && Naps(t, k) == Naps(t, k - 2) + 1 && 2 * Naps(t, k - 2) < m.budget
  {
    Before(t, m, k - 1);
    Opening(t, m, k - 2);
    StillWithin(t, m, k - 2);
    NapTime(t, m, k - 2);
  }

  /** At most half the budget, rounded up, in two-second sleeps. */
  lemma {:induction false} NapsBounded(t: seq<Step>, m: Mission, k: nat)
    requires Protocol(t, m) && k <= |t|
    ensures Naps(t, k) <= (m.budget + 1) / 2
  {
    if k > 0 {
      NapsBounded(t, m, k - 1);
      if t[k - 1].Nap? {
        Opening(t, m, k - 1);
        LastNap(t, m, k);
      }
    }
  }

  /** Every call takes time. */
  ghost predicate Busy(t: seq<Step>) {
    forall i :: 0 <= i < |t| && t[i].Call? ==> t[i].at < t[i].done
  }

  lemma {:induction false} CallTime(t: seq<Step>, m: Mission, k: nat)
    requires Protocol(t, m) && Busy(t) && 3 <= k <= |t|
    ensures Calls(t, k) - 3 <= t[k - 1].done - t[2].done
  {
    if k == 3 {
      FirstThree(t, m);
    } else {
      CallTime(t, m, k - 1);
      Before(t, m, k - 1);
    }
  }

  /** The loop never gets further than two steps past a status call. */
  lemma {:induction false} RecentStatus(t: seq<Step>, m: Mission) returns (s: nat)
    requires Protocol(t, m) && |t| > 3
    ensures 3 <= s < |t| && |t| - s <= 3 && IsStatus(t[s])
  {
    var n := |t|;
    Before(t, m, n - 1);
    if IsStatus(t[n - 1]) {
      return n - 1;
    }
    Opening(t, m, n - 2);
    if IsStatus(t[n - 2]) {
      return n - 2;
    }
    TwoBack(t, m, n - 1);
    Opening(t, m, n - 3);
    return n - 3;
  }

  lemma {:induction false} CallsAtMost(t: seq<Step>, s: nat, k: nat)
    requires s <= k <= |t|
    ensures Calls(t, k) <= Calls(t, s) + (k - s)
  {
    if s < k {
      CallsAtMost(t, s, k - 1);
    }
  }

  /** The whole run is bounded by the budget, however the other side answers, although
      turns that advance the session never sleep: five calls, and one for every tick. */
  lemma {:induction false} CallsBounded(t: seq<Step>, m: Mission)
    requires Protocol(t, m) && Busy(t)
    ensures Calls(t, |t|) <= m.budget * SECOND + 5
  {
    if |t| <= 3 {
      CallsAtMost(t, 0, |t|);
    } else {
      var s := RecentStatus(t, m);
      StillWithin(t, m, s);
      CallTime(t, m, s);
      CallsAtMost(t, s, |t|);
    }
  }

  // ----------------------------------------------------------------------- the outcome

  /** A string under the key, or else this one. */
  ghost predicate HoldsOr(v: Value, key: string, s: string, default: string) {
    Holds(v, key, Str(s)) || (s == default && forall x :: !Holds(v, key, Str(x)))
  }

  /** The last snapshot says that the session is done, and these are its files. */
  ghost predicate DoneWith(s: Step, files: Value) {
    && s.Call? && s.request.Status? && s.reply.Some? && Holds(s.reply.value, "status", Str("done"))
    && (Holds(s.reply.value, "files", files) || (files == Null && forall x :: !Holds(s.reply.value, "files", x)))
  }

  /** What the replies were when a run ended with an outcome. */
  ghost predicate Explains(t: seq<Step>, r: Outcome, now: nat, budget: nat, show: Value -> string,
      sha: seq<byte> -> Crypto.Digest)
  {
    && t != []
    && var last := t[|t| - 1];
       match r
       case CallFailed => last.Call? && last.reply.None?
       case NoMessage =>
         |t| == 1 && last.Call? && last.reply.Some? && forall s :: !Holds(last.reply.value, "message", Str(s))
       case Rejected =>
         |t| == 2 && last.Call? && last.reply.Some? && Holds(last.reply.value, "authenticated", Bool(false))
       case NoSession =>
         |t| == 3 && last.Call? && last.reply.Some? && forall s :: !Holds(last.reply.value, "session_id", Str(s))
       case OverBudget => |t| >= 3 && now == last.done && now - t[2].done >= budget * 1_000_000_000
       case SessionError(message) =>
         && last.Call? && last.request.Status? && last.reply.Some? && Holds(last.reply.value, "status", Str("error"))
         && HoldsOr(last.reply.value, "error_message", message, "(no error_message)")
       case Promoted(sid, hash) =>
         && |t| >= 2 && last.Call? && last.request == Promote(sid) && last.reply.Some?
         && exists files :: DoneWith(t[|t| - 2], files) && IsManifest(files, hash, show, sha)
  }

  lemma StatusMeans(snap: Value)
    ensures TurnOf(snap).Finished? <==> Holds(snap, "status", Str("done"))
    ensures TurnOf(snap).Finished? ==>
              || Holds(snap, "files", TurnOf(snap).files)
              || (TurnOf(snap).files == Null && forall x :: !Holds(snap, "files", x))
    ensures TurnOf(snap).Broken? <==> Holds(snap, "status", Str("error"))
    ensures TurnOf(snap).Broken? ==> HoldsOr(snap, "error_message", TurnOf(snap).message, "(no error_message)")
  {
    AccessorsExact(snap, "status");
    AccessorsExact(snap, "files");
    AccessorsExact(snap, "error_message");
  }

  /** An outcome says what the replies were. */
  lemma {:induction false} OutcomeMeans(t: seq<Step>, r: Outcome, now: nat, m: Mission, show: Value -> string,
      sha: seq<byte> -> Crypto.Digest)
    requires Protocol(t, m) && Ended(t, r, now, m, show, sha)
    ensures Explains(t, r, now, m.budget, show, sha)
  {
    var last := t[|t| - 1];
    Opening(t, m, |t| - 1);
    if r.OverBudget? {
      NapTime(t, m, |t|);
    }
    if last.Call? && last.reply.Some? {
      AccessorsExact(last.reply.value, "message");
      AccessorsExact(last.reply.value, "authenticated");
      AccessorsExact(last.reply.value, "session_id");
      StatusMeans(last.reply.value);
    }
    if r.Promoted? {
      StatusMeans(t[|t| - 2].reply.value);
      assert DoneWith(t[|t| - 2], TurnOf(t[|t| - 2].reply.value).files);
    }
  }
}
