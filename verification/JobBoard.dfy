/** Which job on the board is worth claiming (src/work.rs). */
module JobBoard {
  import opened Text
  import opened Json
  import opened Sequences

  // ------------------------------------------------------------------ the claim margin

  const U128_LIMIT: int := U64_LIMIT * U64_LIMIT
  const LAMPORTS_PER_EST_TOKEN: nat := 500

  /** Multiplication of two 128-bit integers, as the machine does it. */
  function WideMul(a: nat, b: nat): nat {
    (a * b) % U128_LIMIT
  }

  function ShouldClaim(reward: u64, cost: u64, floor: u64, num: u64, den: u64): bool {
    if reward < floor then false
    else if den == 0 then false
    else cost <= WideMul(reward, num) / den
  }

  lemma ProductBound(a: nat, b: nat, x: nat, y: nat)
    requires a <= x && b <= y
    ensures a * b <= x * y
  {
    assert a * b <= x * b <= x * y;
  }

  lemma QuotientExact(cost: nat, product: nat, den: nat)
    requires den > 0
    ensures cost <= product / den <==> cost * den <= product
  {
    var q, r := product / den, product % den;
    assert product == q * den + r && 0 <= r < den;
    if cost <= q {
      ProductBound(cost, den, q, den);
    } else {
      ProductBound(q + 1, den, cost, den);
      assert (q + 1) * den == q * den + den;
    }
  }

  /** The decision over unbounded integers. */
  predicate PaysFor(reward: int, cost: int, floor: int, num: int, den: int) {
    den > 0 && reward >= floor && cost * den <= reward * num
  }

  /** The decision is exact; nothing overflows. */
  lemma ClaimExact(reward: u64, cost: u64, floor: u64, num: u64, den: u64)
    ensures WideMul(reward, num) == reward * num < U128_LIMIT
    ensures ShouldClaim(reward, cost, floor, num, den) <==> PaysFor(reward, cost, floor, num, den)
  {
    ProductBound(reward, num, U64_LIMIT - 1, U64_LIMIT - 1);
    if den > 0 {
      QuotientExact(cost, reward * num, den);
    }
  }

  /** `est_token_cost_for_spec`, with its saturating product. */
  function EstTokenCost(specBytes: u64): u64 {
    var cost := specBytes / 4 * LAMPORTS_PER_EST_TOKEN;
    if cost < U64_LIMIT then cost else U64_LIMIT - 1
  }

  /** Five hundred lamports for every four whole bytes, as far as 64 bits go. */
  lemma EstExact(specBytes: u64, tokens: nat)
    requires 4 * tokens <= specBytes < 4 * (tokens + 1)
    ensures EstTokenCost(specBytes)
            == if 500 * tokens <= 0xFFFF_FFFF_FFFF_FFFF then 500 * tokens else 0xFFFF_FFFF_FFFF_FFFF
  {
    assert specBytes / 4 == tokens;
  }

  lemma PaysForMonotone(reward: nat, more: nat, cost: nat, lower: nat, floor: nat, num: nat, den: nat)
    requires reward <= more && lower <= cost && PaysFor(reward, cost, floor, num, den)
    ensures PaysFor(more, lower, floor, num, den)
  {
    ProductBound(lower, den, cost, den);
    ProductBound(reward, num, more, num);
  }

  lemma EstMonotone(spec: u64, less: u64)
    requires less <= spec
    ensures EstTokenCost(less) <= EstTokenCost(spec)
  {
  }

  /** A higher reward and a smaller spec never turn a claim down. */
  lemma ClaimMonotone(reward: u64, more: u64, spec: u64, less: u64, floor: u64, num: u64, den: u64)
    requires reward <= more && less <= spec
    requires ShouldClaim(reward, EstTokenCost(spec), floor, num, den)
    ensures ShouldClaim(more, EstTokenCost(less), floor, num, den)
  {
    EstMonotone(spec, less);
    assert PaysFor(reward, EstTokenCost(spec), floor, num, den) by {
      ClaimExact(reward, EstTokenCost(spec), floor, num, den);
    }
    PaysForMonotone(reward, more, EstTokenCost(spec), EstTokenCost(less), floor, num, den);
    ClaimExact(more, EstTokenCost(less), floor, num, den);
  }

  // -------------------------------------------------------------------- picking a job

  datatype WorkCfg = WorkCfg(minReward: u64, marginNum: u64, marginDen: u64, model: string, budgetSecs: nat)

  datatype SelectedJob = SelectedJob(taskPda: string, parcelUid: string, reward: u64, brief: string)

  /** The serialized size of a spec is not modelled further. */
  type SpecSize = Value -> u64

  function OrEmpty(s: Option<string>): string {
    if s.Some? then s.value else ""
  }

  function Description(job: Value): string {
    match job.Get("spec")
    case Some(spec) => Trim(OrEmpty(spec.GetStr("short_description")))
    case None => ""
  }

  function BriefFromJob(job: Value): string {
    var title := Trim(OrEmpty(job.GetStr("title")));
    var desc := Description(job);
    if title != "" && desc != "" then title + "\n\n" + desc
    else if title != "" then title
    else if desc != "" then desc
    else "Build the requested parcel app."
  }

  /** A string under a key, with the empty string for anything else. */
  ghost predicate HoldsText(v: Value, key: string, text: string) {
    Holds(v, key, Str(text)) || (text == "" && forall x :: !Holds(v, key, Str(x)))
  }

  /** The title and the short description of the spec, trimmed, with a blank line between
      them; one of them alone; or a fixed sentence. */
  lemma BriefMeans(job: Value, spec: Value, title: string, desc: string)
    requires HoldsText(job, "title", title)
    requires Holds(job, "spec", spec) || (spec == Null && forall x :: !Holds(job, "spec", x))
    requires HoldsText(spec, "short_description", desc)
    ensures BriefFromJob(job) ==
            if Trim(title) != "" && Trim(desc) != "" then Trim(title) + "\n\n" + Trim(desc)
            else if Trim(title) != "" then Trim(title)
            else if Trim(desc) != "" then Trim(desc)
            else "Build the requested parcel app."
  {
    AccessorsExact(job, "title");
    AccessorsExact(job, "spec");
    AccessorsExact(spec, "short_description");
    if job.Get("spec").None? {
      assert Trim("") == "";
    }
  }

  /** The opening brief is never empty: it starts with the title and ends with the
      description, as far as there are any. */
  lemma BriefHoldsBoth(job: Value)
    ensures var brief, title := BriefFromJob(job), Trim(OrEmpty(job.GetStr("title")));
            var desc := Description(job);
            && brief != ""
            && title <= brief
            && |desc| <= |brief| && brief[|brief| - |desc|..] == desc
            && (title != "" && desc != "" ==> |brief| == |title| + 2 + |desc|)
  {
  }

  /** An open job of someone else, with a reward that is not negative, a task and a
      parcel, whose reward pays for its spec. */
  predicate Eligible(job: Value, own: string, cfg: WorkCfg, size: SpecSize) {
    && job.GetStr("status") == Some("open")
    && job.GetStr("owner_pk") != Some(own)
    && job.Get("reward_lamports").Some?
    && var reward := job.Get("reward_lamports").value.AsI64();
    && reward.Some? && reward.value >= 0
    && OrEmpty(job.GetStr("task_pda")) != "" && OrEmpty(job.GetStr("parcel_uid")) != ""
    && var spec := match job.Get("spec") case Some(v) => v case None => Null;
    ShouldClaim(reward.value, EstTokenCost(size(spec)), cfg.minReward, cfg.marginNum, cfg.marginDen)
  }

  /** The members of a job on the board. */
  ghost predicate Posts(job: Value, owner: string, reward: int, task: string, parcel: string, spec: Value) {
    && Holds(job, "status", Str("open"))
    && !Holds(job, "owner_pk", Str(owner))
    && Holds(job, "reward_lamports", Int(reward)) && 0 <= reward < 0x8000_0000_0000_0000
    && Holds(job, "task_pda", Str(task)) && task != ""
    && Holds(job, "parcel_uid", Str(parcel)) && parcel != ""
    && (Holds(job, "spec", spec) || (spec == Null && forall x :: !Holds(job, "spec", x)))
  }

  /** What makes a job eligible, member by member: it is open, it is not one's own, its reward
      reaches the floor, and the reward's margin covers 500 lamports for every four bytes of
      its spec. */
  lemma EligibleMeans(job: Value, own: string, cfg: WorkCfg, size: SpecSize)
    ensures Eligible(job, own, cfg, size) <==>
            exists reward, task, parcel, spec ::
              && Posts(job, own, reward, task, parcel, spec)
              && PaysFor(reward, EstTokenCost(size(spec)), cfg.minReward, cfg.marginNum, cfg.marginDen)
  {
    MembersExact(job);
    if Eligible(job, own, cfg, size) {
      var reward := job.Get("reward_lamports").value.AsI64().value;
      var spec := match job.Get("spec") case Some(v) => v case None => Null;
      ClaimExact(reward, EstTokenCost(size(spec)), cfg.minReward, cfg.marginNum, cfg.marginDen);
      assert Posts(job, own, reward, job.GetStr("task_pda").value, job.GetStr("parcel_uid").value, spec);
    }
    forall reward, task, parcel, spec | Posts(job, own, reward, task, parcel, spec)
        && PaysFor(reward, EstTokenCost(size(spec)), cfg.minReward, cfg.marginNum, cfg.marginDen)
      ensures Eligible(job, own, cfg, size)
    {
      ClaimExact(reward, EstTokenCost(size(spec)), cfg.minReward, cfg.marginNum, cfg.marginDen);
    }
  }

  lemma MembersExact(job: Value)
    ensures forall key, x :: job.Get(key) == Some(x) <==> Holds(job, key, x)
    ensures forall key, s :: job.GetStr(key) == Some(s) <==> Holds(job, key, Str(s))
  {
  }

  function Reward(job: Value): int {
    match job.Get("reward_lamports")
    case Some(Int(n)) => n
    case _ => 0
  }

  function Distilled(job: Value, own: string, cfg: WorkCfg, size: SpecSize): SelectedJob
    requires Eligible(job, own, cfg, size)
  {
    SelectedJob(job.GetStr("task_pda").value, job.GetStr("parcel_uid").value, Reward(job), BriefFromJob(job))
  }

  function Candidate(job: Value, own: string, cfg: WorkCfg, size: SpecSize): Option<SelectedJob> {
    if Eligible(job, own, cfg, size) then Some(Distilled(job, own, cfg, size)) else None
  }

  /** The earlier of two picks, unless the later one pays strictly more. */
  function Better(a: Option<SelectedJob>, b: Option<SelectedJob>): Option<SelectedJob> {
    if a.None? || (b.Some? && b.value.reward > a.value.reward) then b else a
  }

  /** The best of a list of picks, from first to last. */
  function Best(picks: seq<Option<SelectedJob>>): Option<SelectedJob> {
    if picks == [] then None else Better(Best(picks[..|picks| - 1]), picks[|picks| - 1])
  }

  function Picker(own: string, cfg: WorkCfg, size: SpecSize): Value -> Option<SelectedJob> {
    job => Candidate(job, own, cfg, size)
  }

  function Candidates(jobs: seq<Value>, own: string, cfg: WorkCfg, size: SpecSize): (picks: seq<Option<SelectedJob>>) {
    Map(Picker(own, cfg, size), jobs)
  }

  function Selected(jobs: seq<Value>, own: string, cfg: WorkCfg, size: SpecSize): Option<SelectedJob> {
    Best(Candidates(jobs, own, cfg, size))
  }

  /** `select_job` */
  method SelectJob(jobs: seq<Value>, own: string, cfg: WorkCfg, size: SpecSize) returns (best: Option<SelectedJob>)
    ensures best == Selected(jobs, own, cfg, size)
  {
    ghost var picks := Candidates(jobs, own, cfg, size);
    best := None;
    for i := 0 to |jobs|
      invariant best == Best(picks[..i])
    {
      var job := jobs[i];
      assert picks[..i + 1][..i] == picks[..i];
      if job.GetStr("status") != Some("open") {
        continue;
      }
      if job.GetStr("owner_pk") == Some(own) {
        continue;
      }
      var reward := match job.Get("reward_lamports") case Some(v) => v.AsI64() case None => None;
      if reward.None? || reward.value < 0 {
        continue;
      }
      var taskPda, parcelUid := OrEmpty(job.GetStr("task_pda")), OrEmpty(job.GetStr("parcel_uid"));
      if taskPda == "" || parcelUid == "" {
        continue;
      }
      var spec := match job.Get("spec") case Some(v) => v case None => Null;
      if !ShouldClaim(reward.value, EstTokenCost(size(spec)), cfg.minReward, cfg.marginNum, cfg.marginDen) {
        continue;
      }
      var candidate := SelectedJob(taskPda, parcelUid, reward.value, BriefFromJob(job));
      if best.None? || candidate.reward > best.value.reward {
        best := Some(candidate);
      }
    }
    assert picks[..|jobs|] == picks;
  }

  /** Entry `i` is the earliest eligible entry with the highest reward. */
  ghost predicate EarliestBest(jobs: seq<Value>, i: nat, own: string, cfg: WorkCfg, size: SpecSize) {
    && i < |jobs| && Eligible(jobs[i], own, cfg, size)
    && forall j :: 0 <= j < |jobs| && Eligible(jobs[j], own, cfg, size) ==>
         if j < i then Reward(jobs[j]) < Reward(jobs[i]) else Reward(jobs[j]) <= Reward(jobs[i])
  }

  /** The best pick is the earliest of those that pay most. */
  lemma {:induction false} BestIsEarliest(picks: seq<Option<SelectedJob>>) returns (i: nat)
    ensures Best(picks).None? ==> forall j :: 0 <= j < |picks| ==> picks[j].None?
    ensures Best(picks).Some? ==> i < |picks| && picks[i] == Best(picks)
    ensures Best(picks).Some? ==> forall j :: 0 <= j < |picks| && picks[j].Some? ==>
              if j < i then picks[j].value.reward < picks[i].value.reward
              else picks[j].value.reward <= picks[i].value.reward
  {
    i := 0;
    if picks != [] {
      var n := |picks| - 1;
      var init := picks[..n];
      i := BestIsEarliest(init);
      assert forall j :: 0 <= j < n ==> init[j] == picks[j];
      if Best(init).None? || (picks[n].Some? && picks[n].value.reward > Best(init).value.reward) {
        i := n;
      }
    }
  }

  lemma {:induction false} BestConcat(a: seq<Option<SelectedJob>>, b: seq<Option<SelectedJob>>)
    ensures Best(a + b) == Better(Best(a), Best(b))
  {
    if b == [] {
      assert a + b == a;
    } else {
      assert (a + b)[..|a + b| - 1] == a + b[..|b| - 1];
      BestConcat(a, b[..|b| - 1]);
    }
  }

  lemma RewardOfEligible(job: Value, own: string, cfg: WorkCfg, size: SpecSize)
    ensures Candidate(job, own, cfg, size).Some? <==> Eligible(job, own, cfg, size)
    ensures Eligible(job, own, cfg, size) ==> Candidate(job, own, cfg, size).value.reward == Reward(job)
  {
  }

  /** A job is picked exactly when one is eligible, and it is the earliest best one. */
  lemma {:induction false} SelectedIsEarliestBest(jobs: seq<Value>, own: string, cfg: WorkCfg, size: SpecSize)
      returns (i: nat)
    ensures Selected(jobs, own, cfg, size).Some? <==> exists j :: 0 <= j < |jobs| && Eligible(jobs[j], own, cfg, size)
    ensures Selected(jobs, own, cfg, size).Some? ==>
              && EarliestBest(jobs, i, own, cfg, size)
              && Selected(jobs, own, cfg, size) == Some(Distilled(jobs[i], own, cfg, size))
  {
    var picks := Candidates(jobs, own, cfg, size);
    i := BestIsEarliest(picks);
    forall j | 0 <= j < |jobs|
      ensures picks[j].Some? <==> Eligible(jobs[j], own, cfg, size)
      ensures picks[j].Some? ==> picks[j].value.reward == Reward(jobs[j])
    {
      RewardOfEligible(jobs[j], own, cfg, size);
    }
  }

  /** What is picked is handed on as it stands on the board. */
  lemma {:induction false} SelectedMeans(jobs: seq<Value>, own: string, cfg: WorkCfg, size: SpecSize,
      picked: SelectedJob)
      returns (i: nat, spec: Value)
    requires Selected(jobs, own, cfg, size) == Some(picked)
    ensures i < |jobs| && Posts(jobs[i], own, picked.reward, picked.taskPda, picked.parcelUid, spec)
    ensures picked.brief == BriefFromJob(jobs[i])
    ensures forall j :: 0 <= j < |jobs| && Eligible(jobs[j], own, cfg, size) ==>
              if j < i then Reward(jobs[j]) < picked.reward else Reward(jobs[j]) <= picked.reward
  {
    i := SelectedIsEarliestBest(jobs, own, cfg, size);
    MembersExact(jobs[i]);
    spec := match jobs[i].Get("spec") case Some(v) => v case None => Null;
  }

  /** Picking from two boards together is picking the better of the two picks. */
  lemma {:induction false} SelectedConcat(a: seq<Value>, b: seq<Value>, own: string, cfg: WorkCfg, size: SpecSize)
    ensures Selected(a + b, own, cfg, size) == Better(Selected(a, own, cfg, size), Selected(b, own, cfg, size))
  {
    var p, q := Candidates(a, own, cfg, size), Candidates(b, own, cfg, size);
    MapConcat(Picker(own, cfg, size), a, b);
    BestConcat(p, q);
  }

  /** Ineligible jobs, wherever they are inserted, change nothing. */
  lemma {:induction false} IneligibleIgnored(a: seq<Value>, junk: seq<Value>, b: seq<Value>, own: string, cfg: WorkCfg,
      size: SpecSize)
    requires forall job :: job in junk ==> !Eligible(job, own, cfg, size)
    ensures Selected(a + junk + b, own, cfg, size) == Selected(a + b, own, cfg, size)
  {
    var _ := SelectedIsEarliestBest(junk, own, cfg, size);
    SelectedConcat(a, junk, own, cfg, size);
    SelectedConcat(a + junk, b, own, cfg, size);
    SelectedConcat(a, b, own, cfg, size);
  }

  /** The order of the board does not change the winning reward. */
  lemma {:induction false} ShuffleKeepsReward(a: seq<Value>, b: seq<Value>, own: string, cfg: WorkCfg, size: SpecSize)
    requires multiset(a) == multiset(b)
    ensures var x, y := Selected(a, own, cfg, size), Selected(b, own, cfg, size);
            x.Some? == y.Some? && (x.Some? ==> x.value.reward == y.value.reward)
  {
    var i := SelectedIsEarliestBest(a, own, cfg, size);
    var j := SelectedIsEarliestBest(b, own, cfg, size);
    assert forall v :: v in a <==> v in multiset(a);
    assert forall v :: v in b <==> v in multiset(b);
    if Selected(a, own, cfg, size).Some? {
      assert a[i] in b;
    }
    if Selected(b, own, cfg, size).Some? {
      assert b[j] in a;
    }
  }
}
