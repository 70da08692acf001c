/**
 find-regression.py: a binary search over the commits of a branch whose only state, two commits, is
 handed from one CI step to the next; every `check` computes the midpoint again.
 */
module Bisection {
  import opened Options

  type Commit = string

  datatype Outcome = Passed | SoftFailed | Other

  // ------------------------------------------- git queries on a linear branch

  /** A branch, oldest commit first. */
  ghost predicate Distinct(h: seq<Commit>)
  {
    forall i, j :: 0 <= i < j < |h| ==> h[i] != h[j]
  }

  function IndexOf(h: seq<Commit>, c: Commit): (i: nat)
    requires c in h
    ensures i < |h| && h[i] == c
  {
    if h[0] == c then 0 else 1 + IndexOf(h[1..], c)
  }

  function Between(h: seq<Commit>, i: nat, j: nat): (r: seq<Commit>)
    requires i < |h| && j < |h|
    ensures |r| == if i <= j then j - i else 0
    ensures forall k :: 0 <= k < |r| ==> r[k] == h[i + 1 + k]
  {
    if i <= j then h[i + 1..j + 1] else []
  }

  /** git rev-list --reverse start..end: the commits after start up to end. */
  function RevList(h: seq<Commit>, start: Commit, end: Commit): (r: seq<Commit>)
    requires start in h && end in h
  {
    Between(h, IndexOf(h, start), IndexOf(h, end))
  }

  function GetNumberOfCommits(h: seq<Commit>, start: Commit, end: Commit): nat
    requires start in h && end in h
  {
    |RevList(h, start, end)|
  }

  function GetBisectCommit(h: seq<Commit>, start: Commit, end: Commit): (c: Commit)
    requires start in h && end in h
    ensures c in h
  {
    var list := RevList(h, start, end);
    var offset := GetNumberOfCommits(h, start, end) / 2;
    if offset == 0 then start else list[offset - 1]
  }

  /** The next commit on the branch; git prints nothing after the last one. */
  function GetCommitAfter(h: seq<Commit>, c: Commit): Option<Commit>
    requires c in h
  {
    var i := IndexOf(h, c);
    if i + 1 < |h| then Some(h[i + 1]) else None
  }

  lemma IndexUnique(h: seq<Commit>, i: nat)
    requires Distinct(h) && i < |h|
    ensures IndexOf(h, h[i]) == i
  {
  }

  function Mid(g: nat, b: nat): nat
    requires g <= b
  {
    g + (b - g) / 2
  }

  /** The position a pair of bounds leads to: the midpoint, or the start when it is not before the end. */
  function Target(g: nat, b: nat): nat
  {
    if g <= b then Mid(g, b) else g
  }

  lemma BisectIndex(h: seq<Commit>, start: Commit, end: Commit)
    requires start in h && end in h
    ensures var g, b := IndexOf(h, start), IndexOf(h, end);
            Target(g, b) < |h| && GetBisectCommit(h, start, end) == h[Target(g, b)]
  {
  }

  /** The midpoint in positions: start plus half the distance. */
  lemma BisectPosition(h: seq<Commit>, g: nat, b: nat)
    requires Distinct(h) && g <= b < |h|
    ensures GetBisectCommit(h, h[g], h[b]) == h[Mid(g, b)]
    ensures GetNumberOfCommits(h, h[g], h[b]) == b - g
  {
    IndexUnique(h, g);
    IndexUnique(h, b);
    BisectIndex(h, h[g], h[b]);
  }

  // -------------------------------------------------------- the search itself

  /** Where a search ends and which positions it runs, in order. */
  datatype Search = Search(at: nat, runs: seq<nat>)

  function Probe(bad: nat -> bool, g: nat, b: nat): Search
    requires g <= b
    decreases b - g
  {
    if g == b then Search(g, [])
    else
      var m := Mid(g, b);
      var rest := if bad(m) then Probe(bad, g, m) else Probe(bad, m + 1, b);
      Search(rest.at, [m] + rest.runs)
  }

  /** The reported position is the end or was seen failing, and is the start or follows one seen passing. */
  lemma {:induction false} ProbeBrackets(bad: nat -> bool, g: nat, b: nat)
    requires g <= b
    ensures var s := Probe(bad, g, b);
            && g <= s.at <= b
            && (s.at < b ==> s.at in s.runs && bad(s.at))
            && (g < s.at ==> s.at - 1 in s.runs && !bad(s.at - 1))
    decreases b - g
  {
    if g < b {
      var m := Mid(g, b);
      if bad(m) { ProbeBrackets(bad, g, m); } else { ProbeBrackets(bad, m + 1, b); }
    }
  }

  ghost predicate OnceWithin(runs: seq<nat>, g: nat, b: nat)
  {
    && (forall i :: 0 <= i < |runs| ==> g <= runs[i] < b)
    && (forall i, j :: 0 <= i < j < |runs| ==> runs[i] != runs[j])
  }

  lemma OnceCons(m: nat, runs: seq<nat>, lo: nat, hi: nat, g: nat, b: nat)
    requires OnceWithin(runs, lo, hi) && g <= lo && hi <= b && g <= m < b && (m < lo || hi <= m)
    ensures OnceWithin([m] + runs, g, b)
  {
  }

  /** No position is run twice, and none outside the range. */
  lemma {:induction false} ProbeRunsOnce(bad: nat -> bool, g: nat, b: nat)
    requires g <= b
    ensures OnceWithin(Probe(bad, g, b).runs, g, b)
    decreases b - g
  {
    if g < b {
      var m := Mid(g, b);
      if bad(m) {
        ProbeRunsOnce(bad, g, m);
        OnceCons(m, Probe(bad, g, m).runs, g, m, g, b);
      } else {
        ProbeRunsOnce(bad, m + 1, b);
        OnceCons(m, Probe(bad, m + 1, b).runs, m + 1, b, g, b);
      }
    }
  }

  /** Once bad, bad for good, up to the end. */
  ghost predicate Monotone(bad: nat -> bool, g: nat, b: nat)
  {
    forall i, j :: g <= i <= j < b && bad(i) ==> bad(j)
  }

  /** If outcomes never recover, the search reports the first bad position (the end counts as bad). */
  lemma ProbeFindsFirstBad(bad: nat -> bool, g: nat, b: nat)
    requires g <= b && Monotone(bad, g, b)
    ensures var p := Probe(bad, g, b).at;
            (forall i :: g <= i < p ==> !bad(i)) && (forall i :: p <= i < b ==> bad(i))
  {
    ProbeBrackets(bad, g, b);
    var p := Probe(bad, g, b).at;
    if g < p { assert !bad(p - 1); }
  }

  // --------------------------------------------------------------- its length

  /** floor of the binary logarithm. */
  function Log2(n: nat): nat
    requires n >= 1
  {
    if n == 1 then 0 else 1 + Log2(n / 2)
  }

  function Pow2(k: nat): nat
  {
    if k == 0 then 1 else 2 * Pow2(k - 1)
  }

  lemma {:induction false} Log2Bounds(n: nat)
    requires n >= 1
    ensures Pow2(Log2(n)) <= n < Pow2(Log2(n) + 1)
  {
    if n > 1 { Log2Bounds(n / 2); }
  }

  lemma {:induction false} Log2Monotone(m: nat, n: nat)
    requires 1 <= m <= n
    ensures Log2(m) <= Log2(n)
  {
    if m > 1 { Log2Monotone(m / 2, n / 2); }
  }

  /** At most floor(log2 d) + 1 runs for a distance d of at least one. */
  lemma {:induction false} ProbeIsLogarithmic(bad: nat -> bool, g: nat, b: nat)
    requires g < b
    ensures |Probe(bad, g, b).runs| <= Log2(b - g) + 1
    decreases b - g
  {
    var m, d := Mid(g, b), b - g;
    if bad(m) {
      if g < m { ProbeIsLogarithmic(bad, g, m); }
    } else if m + 1 < b {
      ProbeIsLogarithmic(bad, m + 1, b);
      Log2Monotone(b - (m + 1), d / 2);
    }
  }

  /** The bound is reached whenever every commit fails. */
  lemma {:induction false} ProbeWorstCase(bad: nat -> bool, g: nat, b: nat)
    requires g < b && forall i :: g <= i < b ==> bad(i)
    ensures |Probe(bad, g, b).runs| == Log2(b - g) + 1
    decreases b - g
  {
    var m := Mid(g, b);
    if g < m { ProbeWorstCase(bad, g, m); }
  }

  // ------------------------------------------------------------- the CI steps

  datatype Step =
    | RunCommit(commit: Commit)  // upload run-<commit>, then check
    | Report(commit: Commit)
    | OffBranch                  // no commit follows the one that passed: GOOD_COMMIT is empty
    | Exit                       // invalid outcome: sys.exit(1)

  function Continue(h: seq<Commit>, good: Commit, bad: Commit): Step
    requires good in h && bad in h
  {
    if good == bad then Report(good) else RunCommit(GetBisectCommit(h, good, bad))
  }

  /** The environment that one step passes to the next. */
  class Env {
    var goodCommit: Commit
    var badCommit: Commit

    constructor (good: Commit, bad: Commit)
      ensures goodCommit == good && badCommit == bad
    {
      goodCommit, badCommit := good, bad;
    }

    /** `start`, and the end of a `check` that goes on: the step key names the midpoint of the bounds' positions. */
    method RunPipeline(h: seq<Commit>) returns (step: Step)
      requires goodCommit in h && badCommit in h
      ensures var g, b := IndexOf(h, goodCommit), IndexOf(h, badCommit);
              Target(g, b) < |h| && step == RunCommit(h[Target(g, b)])
    {
      BisectIndex(h, goodCommit, badCommit);
      step := RunCommit(GetBisectCommit(h, goodCommit, badCommit));
    }

    /** One `check`: read the outcome of the midpoint's run, narrow the range, report or go on. */
    method Check(h: seq<Commit>, outcome: Commit -> Outcome) returns (step: Step)
      requires goodCommit in h && badCommit in h
      modifies this
      ensures badCommit in h && goodCommit in h
      ensures var commit := GetBisectCommit(h, old(goodCommit), old(badCommit));
              var after := GetCommitAfter(h, commit);
              match outcome(commit)
              case SoftFailed =>
                goodCommit == old(goodCommit) && badCommit == commit && step == Continue(h, goodCommit, badCommit)
              case Passed =>
                badCommit == old(badCommit) &&
                (if after.Some? then goodCommit == after.value && step == Continue(h, goodCommit, badCommit)
                 else goodCommit == old(goodCommit) && step == OffBranch)
              case Other => goodCommit == old(goodCommit) && badCommit == old(badCommit) && step == Exit
    {
      var commit := GetBisectCommit(h, goodCommit, badCommit);
      match outcome(commit) {
        case SoftFailed =>
          badCommit := commit;
        case Passed =>
          var after := GetCommitAfter(h, commit);
          if after.None? {
            return OffBranch;
          }
          goodCommit := after.value;
        case Other =>
          return Exit;
      }
      if goodCommit == badCommit {
        step := Report(goodCommit);
      } else {
        BisectIndex(h, goodCommit, badCommit);
        step := RunPipeline(h);
      }
    }
  }

  /**
   A `check` whose good commit is not before its bad one.  The documentation says such bounds are
   reported at once; the code runs the good commit first and, if it passes, moves on from it.
   */
  method CheckForward(env: Env, h: seq<Commit>, outcome: Commit -> Outcome, ghost p: nat, ghost b: nat) returns (step: Step)
    requires Distinct(h) && b <= p < |h| && env.goodCommit == h[p] && env.badCommit == h[b]
    modifies env
    ensures match outcome(h[p])
            case SoftFailed => step == Report(h[p])
            case Passed =>
              if p + 1 < |h|
              then step == RunCommit(h[p + 1]) && env.goodCommit == h[p + 1] && env.badCommit == h[b]
              else step == OffBranch
            case Other => step == Exit
  {
    BisectIndex(h, h[p], h[b]);
    IndexUnique(h, p);
    IndexUnique(h, b);
    if p + 1 < |h| {
      IndexUnique(h, p + 1);
      BisectIndex(h, h[p + 1], h[b]);
    }
    step := env.Check(h, outcome);
  }

  // ------------------------------------------------------------ a whole bisection

  ghost predicate Appends(branch: nat -> seq<Commit>, k: nat)
  {
    Distinct(branch(k)) && branch(k) <= branch(k + 1)
  }

  /** The branch as each step fetches it: commits are only appended. */
  ghost predicate OnlyAppended(branch: nat -> seq<Commit>)
  {
    forall k: nat {:trigger Appends(branch, k)} :: Appends(branch, k)
  }

  lemma {:induction false} StillPrefix(branch: nat -> seq<Commit>, k: nat)
    requires OnlyAppended(branch)
    ensures branch(0) <= branch(k) && Distinct(branch(k))
  {
    assert Appends(branch, k);
    if k > 0 {
      StillPrefix(branch, k - 1);
      assert Appends(branch, k - 1);
    }
  }

  /** Commits at the given positions. */
  function CommitsAt(h: seq<Commit>, positions: seq<nat>): seq<Commit>
    requires forall i :: 0 <= i < |positions| ==> positions[i] < |h|
  {
    seq(|positions|, i requires 0 <= i < |positions| => h[positions[i]])
  }

  function Bad(h: seq<Commit>, outcome: Commit -> Outcome): nat -> bool
  {
    (i: nat) => i < |h| && outcome(h[i]) == SoftFailed
  }

  /** The midpoint of two old commits does not move when the branch grows. */
  lemma MidpointStable(h: seq<Commit>, h': seq<Commit>, g: nat, b: nat)
    requires Distinct(h) && Distinct(h') && h <= h' && g <= b < |h|
    ensures h[g] in h' && h[b] in h'
    ensures GetBisectCommit(h', h[g], h[b]) == GetBisectCommit(h, h[g], h[b]) == h[Mid(g, b)]
  {
    assert h'[g] == h[g] && h'[b] == h[b];
    BisectPosition(h, g, b);
    BisectPosition(h', g, b);
  }

  /** What a range of positions leads to next. */
  ghost function StepAt(h: seq<Commit>, lo: nat, hi: nat): Step
    requires lo <= hi < |h|
  {
    if lo == hi then Report(h[lo]) else RunCommit(h[Mid(lo, hi)])
  }

  lemma ContinueAt(h: seq<Commit>, h': seq<Commit>, lo: nat, hi: nat)
    requires Distinct(h) && Distinct(h') && h <= h' && lo <= hi < |h|
    ensures h[lo] in h' && h[hi] in h' && Continue(h', h[lo], h[hi]) == StepAt(h, lo, hi)
  {
    MidpointStable(h, h', lo, hi);
  }

  lemma AfterAt(h: seq<Commit>, h': seq<Commit>, i: nat)
    requires Distinct(h) && Distinct(h') && h <= h' && i + 1 < |h|
    ensures h[i] in h' && GetCommitAfter(h', h[i]) == Some(h[i + 1])
  {
  }

  /** A `check` in positions of the branch as it was at the start; it reads the run uploaded before it. */
  method CheckAt(env: Env, ghost h: seq<Commit>, fetched: seq<Commit>, outcome: Commit -> Outcome,
                 ghost lo: nat, ghost hi: nat, key: Commit) returns (step: Step)
    requires Distinct(h) && Distinct(fetched) && h <= fetched && lo < hi < |h|
    requires env.goodCommit == h[lo] && env.badCommit == h[hi] && RunCommit(key) == StepAt(h, lo, hi)
    modifies env
    ensures key == h[Mid(lo, hi)]
    ensures match outcome(key)
            case SoftFailed =>
              env.goodCommit == h[lo] && env.badCommit == key && step == StepAt(h, lo, Mid(lo, hi))
            case Passed =>
              env.goodCommit == h[Mid(lo, hi) + 1] && env.badCommit == h[hi] && step == StepAt(h, Mid(lo, hi) + 1, hi)
            case Other => step == Exit
  {
    ghost var m := Mid(lo, hi);
    MidpointStable(h, fetched, lo, hi);
    assert GetBisectCommit(fetched, env.goodCommit, env.badCommit) == key;
    AfterAt(h, fetched, m);
    ContinueAt(h, fetched, lo, m);
    ContinueAt(h, fetched, m + 1, hi);
    step := env.Check(fetched, outcome);
  }

  ghost predicate InRange(positions: seq<nat>, h: seq<Commit>)
  {
    forall i :: 0 <= i < |positions| ==> positions[i] < |h|
  }

  /** The search from (g, b) has run the positions in done and goes on from (lo, hi). */
  ghost predicate Reached(h: seq<Commit>, bad: nat -> bool, g: nat, b: nat, lo: nat, hi: nat, done: seq<nat>)
    requires g <= b
  {
    && g <= lo <= hi <= b
    && InRange(done, h)
    && Probe(bad, g, b) == Search(Probe(bad, lo, hi).at, done + Probe(bad, lo, hi).runs)
  }

  lemma ReachedNext(h: seq<Commit>, bad: nat -> bool, g: nat, b: nat, lo: nat, hi: nat, done: seq<nat>)
    requires g <= b < |h| && Reached(h, bad, g, b, lo, hi, done) && lo < hi
    ensures var m := Mid(lo, hi);
            if bad(m) then Reached(h, bad, g, b, lo, m, done + [m]) else Reached(h, bad, g, b, m + 1, hi, done + [m])
    ensures CommitsAt(h, done + [Mid(lo, hi)]) == CommitsAt(h, done) + [h[Mid(lo, hi)]]
  {
  }

  lemma ReachedEnd(h: seq<Commit>, bad: nat -> bool, g: nat, b: nat, lo: nat, done: seq<nat>)
    requires g <= b && Reached(h, bad, g, b, lo, lo, done)
    ensures Probe(bad, g, b) == Search(lo, done)
  {
  }

  /** Environment, next step and uploaded keys agree with the search. */
  ghost predicate OnTrack(h: seq<Commit>, outcome: Commit -> Outcome, g: nat, b: nat, lo: nat, hi: nat, done: seq<nat>,
                          good: Commit, badCommit: Commit, step: Step, keys: seq<Commit>)
    requires g <= b < |h|
  {
    && Reached(h, Bad(h, outcome), g, b, lo, hi, done)
    && (forall i :: 0 <= i < |done| ==> outcome(h[done[i]]) != Other)
    && if step.Exit?
       then lo < hi && outcome(h[Mid(lo, hi)]) == Other && keys == CommitsAt(h, done) + [h[Mid(lo, hi)]]
       else && good == h[lo] && badCommit == h[hi] && step == StepAt(h, lo, hi)
            && keys == CommitsAt(h, done) + (if step.RunCommit? then [step.commit] else [])
  }

  /** The range (lo', hi') that the outcome at the midpoint of (lo, hi) leaves. */
  ghost predicate Narrowed(bad: bool, lo: nat, hi: nat, lo': nat, hi': nat)
    requires lo < hi
  {
    if bad then lo' == lo && hi' == Mid(lo, hi) else lo' == Mid(lo, hi) + 1 && hi' == hi
  }

  lemma NextOnTrack(h: seq<Commit>, outcome: Commit -> Outcome, g: nat, b: nat, lo: nat, hi: nat, done: seq<nat>,
                    good: Commit, badCommit: Commit, step: Step, keys: seq<Commit>, lo': nat, hi': nat)
    requires g <= b < |h| && step.RunCommit? && OnTrack(h, outcome, g, b, lo, hi, done, good, badCommit, step, keys)
    requires outcome(step.commit) != Other && Narrowed(outcome(step.commit) == SoftFailed, lo, hi, lo', hi')
    ensures lo' <= hi' < |h| && hi' - lo' < hi - lo
    ensures var step' := StepAt(h, lo', hi');
            OnTrack(h, outcome, g, b, lo', hi', done + [Mid(lo, hi)], h[lo'], h[hi'], step',
                    keys + (if step'.RunCommit? then [step'.commit] else []))
  {
    ReachedNext(h, Bad(h, outcome), g, b, lo, hi, done);
    assert keys == CommitsAt(h, done + [Mid(lo, hi)]);
  }

  /** One `check` of a bisection, with its bookkeeping. */
  method Turn(env: Env, ghost h: seq<Commit>, fetched: seq<Commit>, outcome: Commit -> Outcome, ghost g: nat, ghost b: nat,
              ghost lo: nat, ghost hi: nat, ghost done: seq<nat>, step: Step, keys: seq<Commit>)
      returns (step': Step, keys': seq<Commit>, ghost lo': nat, ghost hi': nat, ghost done': seq<nat>)
    requires Distinct(h) && Distinct(fetched) && h <= fetched && g <= b < |h| && step.RunCommit?
    requires OnTrack(h, outcome, g, b, lo, hi, done, env.goodCommit, env.badCommit, step, keys)
    modifies env
    ensures OnTrack(h, outcome, g, b, lo', hi', done', env.goodCommit, env.badCommit, step', keys')
    ensures step'.Exit? || (lo' <= hi' && hi' - lo' < hi - lo)
  {
    lo', hi', done' := lo, hi, done;
    if outcome(step.commit) != Other {
      done' := done + [Mid(lo, hi)];
      if outcome(step.commit) == SoftFailed {
        hi' := Mid(lo, hi);
      } else {
        lo' := Mid(lo, hi) + 1;
      }
      NextOnTrack(h, outcome, g, b, lo, hi, done, env.goodCommit, env.badCommit, step, keys, lo', hi');
    }
    step' := CheckAt(env, h, fetched, outcome, lo, hi, step.commit);
    keys' := keys + (if step'.RunCommit? then [step'.commit] else []);
  }

  /** The commit at position p was seen failing or is the end, and follows one seen passing or is the start. */
  ghost predicate Witnessed(h: seq<Commit>, outcome: Commit -> Outcome, g: nat, b: nat, p: nat, keys: seq<Commit>)
    requires g <= p <= b < |h|
  {
    && (p == b || (h[p] in keys && outcome(h[p]) == SoftFailed))
    && (p == g || (h[p - 1] in keys && outcome(h[p - 1]) != SoftFailed))
  }

  /** Outcomes that never recover once they have failed. */
  ghost predicate NeverRecovers(h: seq<Commit>, outcome: Commit -> Outcome, g: nat, b: nat)
    requires g <= b < |h|
  {
    forall i, j :: g <= i <= j < b && outcome(h[i]) == SoftFailed ==> outcome(h[j]) == SoftFailed
  }

  ghost predicate FirstBad(h: seq<Commit>, outcome: Commit -> Outcome, g: nat, b: nat, p: nat)
    requires g <= p <= b < |h|
  {
    && (forall i :: g <= i < p ==> outcome(h[i]) != SoftFailed)
    && (forall i :: p <= i < b ==> outcome(h[i]) == SoftFailed)
  }

  lemma RunsToKeys(h: seq<Commit>, runs: seq<nat>, g: nat, b: nat)
    requires Distinct(h) && b < |h| && OnceWithin(runs, g, b)
    ensures InRange(runs, h) && Distinct(CommitsAt(h, runs))
    ensures forall p :: p in runs ==> p < |h| && h[p] in CommitsAt(h, runs)
  {
    var keys := CommitsAt(h, runs);
    forall i, j | 0 <= i < j < |keys| ensures keys[i] != keys[j] {
      assert runs[i] < runs[j] || runs[j] < runs[i];
    }
    forall p | p in runs ensures p < |h| && h[p] in keys {
      var k :| 0 <= k < |runs| && runs[k] == p;
      assert keys[k] == h[p];
    }
  }

  lemma SearchWitnessed(h: seq<Commit>, outcome: Commit -> Outcome, g: nat, b: nat)
    requires Distinct(h) && g < b < |h|
    ensures var s := Probe(Bad(h, outcome), g, b);
            && g <= s.at <= b && InRange(s.runs, h) && Distinct(CommitsAt(h, s.runs))
            && Witnessed(h, outcome, g, b, s.at, CommitsAt(h, s.runs))
  {
    var bad := Bad(h, outcome);
    ProbeBrackets(bad, g, b);
    ProbeRunsOnce(bad, g, b);
    RunsToKeys(h, Probe(bad, g, b).runs, g, b);
  }

  lemma SearchFirstBad(h: seq<Commit>, outcome: Commit -> Outcome, g: nat, b: nat)
    requires g < b < |h| && NeverRecovers(h, outcome, g, b)
    ensures var p := Probe(Bad(h, outcome), g, b).at;
            g <= p <= b && FirstBad(h, outcome, g, b, p)
  {
    ProbeBrackets(Bad(h, outcome), g, b);
    ProbeFindsFirstBad(Bad(h, outcome), g, b);
  }

  /** What the search means for the commits of the branch. */
  lemma SearchOnBranch(h: seq<Commit>, outcome: Commit -> Outcome, g: nat, b: nat)
    requires Distinct(h) && g < b < |h|
    ensures var s := Probe(Bad(h, outcome), g, b);
            && g <= s.at <= b && InRange(s.runs, h)
            && |s.runs| <= Log2(b - g) + 1
            && Distinct(CommitsAt(h, s.runs))
            && Witnessed(h, outcome, g, b, s.at, CommitsAt(h, s.runs))
            && (NeverRecovers(h, outcome, g, b) ==> FirstBad(h, outcome, g, b, s.at))
  {
    SearchWitnessed(h, outcome, g, b);
    ProbeIsLogarithmic(Bad(h, outcome), g, b);
    if NeverRecovers(h, outcome, g, b) {
      SearchFirstBad(h, outcome, g, b);
    }
  }

  /**
   The reported commit is witnessed by its neighbours' runs, and the first bad one if outcomes never
   recover; no commit was run twice, at most floor(log2 d) + 1 were, and all had a valid outcome.
   */
  ghost predicate Found(h: seq<Commit>, outcome: Commit -> Outcome, g: nat, b: nat, reported: Commit, keys: seq<Commit>)
    requires g < b < |h|
  {
    && (exists p :: g <= p <= b && reported == h[p] &&
                    Witnessed(h, outcome, g, b, p, keys) &&
                    (NeverRecovers(h, outcome, g, b) ==> FirstBad(h, outcome, g, b, p)))
    && |keys| <= Log2(b - g) + 1
    && Distinct(keys)
    && forall i :: 0 <= i < |keys| ==> outcome(keys[i]) != Other
  }

  lemma ReportFound(h: seq<Commit>, outcome: Commit -> Outcome, g: nat, b: nat, lo: nat, hi: nat, done: seq<nat>,
                    good: Commit, badCommit: Commit, step: Step, keys: seq<Commit>)
    requires Distinct(h) && g < b < |h| && step.Report?
    requires OnTrack(h, outcome, g, b, lo, hi, done, good, badCommit, step, keys)
    ensures Found(h, outcome, g, b, step.commit, keys)
  {
    ReachedEnd(h, Bad(h, outcome), g, b, lo, done);
    SearchOnBranch(h, outcome, g, b);
    assert keys == CommitsAt(h, done);
  }

  /**
   The last commit run is one of the range and had an invalid outcome; those run before it had valid
   ones, none was run twice, and there were at most floor(log2 d) + 1.
   */
  ghost predicate Stopped(h: seq<Commit>, outcome: Commit -> Outcome, g: nat, b: nat, keys: seq<Commit>)
    requires g < b < |h|
  {
    && 0 < |keys| <= Log2(b - g) + 1
    && Distinct(keys)
    && (forall i :: 0 <= i < |keys| - 1 ==> outcome(keys[i]) != Other)
    && outcome(keys[|keys| - 1]) == Other
    && exists p :: g <= p < b && keys[|keys| - 1] == h[p]
  }

  /** What has been run so far is the beginning of what the search runs. */
  lemma RunsSoFar(bad: nat -> bool, h: seq<Commit>, g: nat, b: nat, lo: nat, hi: nat, done: seq<nat>)
    requires g <= b && Reached(h, bad, g, b, lo, hi, done) && lo < hi
    ensures done + [Mid(lo, hi)] <= Probe(bad, g, b).runs
  {
    var rest := Probe(bad, lo, hi).runs;
    assert rest[0] == Mid(lo, hi);
    assert (done + rest)[..|done| + 1] == done + [Mid(lo, hi)];
  }

  lemma PrefixOfKeys(h: seq<Commit>, runs: seq<nat>, some: seq<nat>)
    requires InRange(runs, h) && some <= runs && Distinct(CommitsAt(h, runs))
    ensures InRange(some, h) && Distinct(CommitsAt(h, some))
  {
    var keys, all := CommitsAt(h, some), CommitsAt(h, runs);
    forall i, j | 0 <= i < j < |keys| ensures keys[i] != keys[j] {
      assert keys[i] == all[i] && keys[j] == all[j];
    }
  }

  lemma ExitStopped(h: seq<Commit>, outcome: Commit -> Outcome, g: nat, b: nat, lo: nat, hi: nat, done: seq<nat>,
                    good: Commit, badCommit: Commit, step: Step, keys: seq<Commit>)
    requires Distinct(h) && g < b < |h| && step.Exit?
    requires OnTrack(h, outcome, g, b, lo, hi, done, good, badCommit, step, keys)
    ensures Stopped(h, outcome, g, b, keys)
  {
    var runs, m := Probe(Bad(h, outcome), g, b).runs, Mid(lo, hi);
    SearchOnBranch(h, outcome, g, b);
    RunsSoFar(Bad(h, outcome), h, g, b, lo, hi, done);
    PrefixOfKeys(h, runs, done + [m]);
    assert keys == CommitsAt(h, done + [m]);
    assert keys[|keys| - 1] == h[m];
  }

  lemma StartOnTrack(h: seq<Commit>, outcome: Commit -> Outcome, g: nat, b: nat)
    requires Distinct(h) && g < b < |h|
    ensures var c := GetBisectCommit(h, h[g], h[b]);
            OnTrack(h, outcome, g, b, g, b, [], h[g], h[b], RunCommit(c), [c])
  {
    BisectPosition(h, g, b);
  }

  // --------------------------------------------- bounds in the wrong order

  /** The commits from position g on are run one by one, all but the last of them have passed. */
  ghost predicate RunsFrom(h: seq<Commit>, outcome: Commit -> Outcome, g: nat, keys: seq<Commit>)
  {
    && 0 < |keys| && g + |keys| <= |h| && keys == h[g..g + |keys|]
    && forall i :: 0 <= i < |keys| - 1 ==> outcome(keys[i]) == Passed
  }

  ghost predicate Scanning(h: seq<Commit>, outcome: Commit -> Outcome, g: nat, b: nat,
                           good: Commit, badCommit: Commit, step: Step, keys: seq<Commit>)
  {
    && b <= g && RunsFrom(h, outcome, g, keys)
    && good == keys[|keys| - 1] && badCommit == h[b] && step == RunCommit(good)
  }

  /** The search ends at the first commit from g on that fails, at one without a valid outcome, or past the tip. */
  ghost predicate Scanned(h: seq<Commit>, outcome: Commit -> Outcome, g: nat, step: Step, keys: seq<Commit>)
  {
    && RunsFrom(h, outcome, g, keys)
    && var last := keys[|keys| - 1];
       match outcome(last)
       case SoftFailed => step == Report(last)
       case Passed => step == OffBranch && g + |keys| == |h|
       case Other => step == Exit
  }

  lemma RunsFromGrows(h: seq<Commit>, h': seq<Commit>, outcome: Commit -> Outcome, g: nat, keys: seq<Commit>)
    requires RunsFrom(h, outcome, g, keys) && h <= h'
    ensures RunsFrom(h', outcome, g, keys) && h'[g + |keys| - 1] == keys[|keys| - 1]
    ensures outcome(keys[|keys| - 1]) == Passed && g + |keys| < |h'| ==> RunsFrom(h', outcome, g, keys + [h'[g + |keys|]])
  {
    assert h'[g..g + |keys|] == h[g..g + |keys|];
  }

  /** One `check` of such a search, on the branch as it has grown. */
  method TurnForward(env: Env, ghost h: seq<Commit>, fetched: seq<Commit>, outcome: Commit -> Outcome, ghost g: nat, ghost b: nat,
                     step: Step, keys: seq<Commit>) returns (step': Step, keys': seq<Commit>)
    requires Distinct(fetched) && h <= fetched
    requires Scanning(h, outcome, g, b, env.goodCommit, env.badCommit, step, keys)
    modifies env
    ensures if step'.RunCommit?
            then Scanning(fetched, outcome, g, b, env.goodCommit, env.badCommit, step', keys') && |keys'| == |keys| + 1
            else Scanned(fetched, outcome, g, step', keys) && keys' == keys
  {
    RunsFromGrows(h, fetched, outcome, g, keys);
    step' := CheckForward(env, fetched, outcome, g + |keys| - 1, b);
    keys' := keys + (if step'.RunCommit? then [step'.commit] else []);
  }

  lemma OneRun(h: seq<Commit>, outcome: Commit -> Outcome, g: nat)
    requires g < |h|
    ensures RunsFrom(h, outcome, g, [h[g]])
  {
    assert h[g..g + 1] == [h[g]];
  }

  lemma StartScanning(h: seq<Commit>, outcome: Commit -> Outcome, g: nat, b: nat)
    requires Distinct(h) && b <= g < |h|
    ensures GetBisectCommit(h, h[g], h[b]) == h[g]
    ensures Scanning(h, outcome, g, b, h[g], h[b], RunCommit(h[g]), [h[g]])
  {
    IndexUnique(h, g);
    IndexUnique(h, b);
    BisectIndex(h, h[g], h[b]);
    OneRun(h, outcome, g);
  }

  // --------------------------------------------------------- the whole search

  /** What the search promises, for bounds in either order. */
  ghost predicate Searched(branch: nat -> seq<Commit>, outcome: Commit -> Outcome, g: nat, b: nat, step: Step, keys: seq<Commit>)
    requires g < |branch(0)| && b < |branch(0)|
  {
    if g < b
    then match step
         case Report(commit) => Found(branch(0), outcome, g, b, commit, keys)
         case Exit => Stopped(branch(0), outcome, g, b, keys)
         case _ => false
    else Scanned(branch(|keys|), outcome, g, step, keys)
  }

  /** After k checks the search is on track, whichever order its bounds are in. */
  ghost predicate Underway(branch: nat -> seq<Commit>, outcome: Commit -> Outcome, g: nat, b: nat, k: nat, lo: nat, hi: nat,
                           done: seq<nat>, good: Commit, badCommit: Commit, step: Step, keys: seq<Commit>)
    requires g < |branch(0)| && b < |branch(0)|
  {
    if g < b then OnTrack(branch(0), outcome, g, b, lo, hi, done, good, badCommit, step, keys)
    else if step.RunCommit?
    then Scanning(branch(k), outcome, g, b, good, badCommit, step, keys) && |keys| == k + 1
    else Scanned(branch(k), outcome, g, step, keys) && |keys| == k
  }

  /** How much is left: the range, or the commits ahead. */
  ghost function Left(g: nat, b: nat, lo: nat, hi: nat, limit: nat, step: Step, keys: seq<Commit>): int
  {
    if !step.RunCommit? then 0 else if g < b then 1 + hi - lo else 1 + limit - |keys|
  }

  lemma StartUnderway(branch: nat -> seq<Commit>, outcome: Commit -> Outcome, g: nat, b: nat)
    requires OnlyAppended(branch) && g < |branch(0)| && b < |branch(0)|
    ensures var h := branch(0);
            var c := GetBisectCommit(h, h[g], h[b]);
            Underway(branch, outcome, g, b, 0, g, b, [], h[g], h[b], RunCommit(c), [c])
  {
    StillPrefix(branch, 0);
    if g < b { StartOnTrack(branch(0), outcome, g, b); } else { StartScanning(branch(0), outcome, g, b); }
  }

  lemma EndSearched(branch: nat -> seq<Commit>, outcome: Commit -> Outcome, g: nat, b: nat, k: nat, lo: nat, hi: nat,
                    done: seq<nat>, good: Commit, badCommit: Commit, step: Step, keys: seq<Commit>)
    requires OnlyAppended(branch) && g < |branch(0)| && b < |branch(0)| && !step.RunCommit?
    requires Underway(branch, outcome, g, b, k, lo, hi, done, good, badCommit, step, keys)
    ensures Searched(branch, outcome, g, b, step, keys)
  {
    StillPrefix(branch, 0);
    if g < b {
      if step.Report? {
        ReportFound(branch(0), outcome, g, b, lo, hi, done, good, badCommit, step, keys);
      } else {
        ExitStopped(branch(0), outcome, g, b, lo, hi, done, good, badCommit, step, keys);
      }
    }
  }

  method NextCheck(env: Env, branch: nat -> seq<Commit>, outcome: Commit -> Outcome, g: nat, b: nat, k: nat, ghost limit: nat,
                   ghost lo: nat, ghost hi: nat, ghost done: seq<nat>, step: Step, keys: seq<Commit>)
      returns (step': Step, keys': seq<Commit>, ghost lo': nat, ghost hi': nat, ghost done': seq<nat>)
    requires OnlyAppended(branch) && g < |branch(0)| && b < |branch(0)| && step.RunCommit?
    requires b <= g ==> |branch(k)| <= limit
    requires Underway(branch, outcome, g, b, k, lo, hi, done, env.goodCommit, env.badCommit, step, keys)
    modifies env
    ensures Underway(branch, outcome, g, b, k + 1, lo', hi', done', env.goodCommit, env.badCommit, step', keys')
    ensures Left(g, b, lo', hi', limit, step', keys') < Left(g, b, lo, hi, limit, step, keys)
  {
    StillPrefix(branch, 0);
    StillPrefix(branch, k + 1);
    if g < b {
      step', keys', lo', hi', done' := Turn(env, branch(0), branch(k + 1), outcome, g, b, lo, hi, done, step, keys);
    } else {
      assert Appends(branch, k);
      lo', hi', done' := lo, hi, done;
      step', keys' := TurnForward(env, branch(k), branch(k + 1), outcome, g, b, step, keys);
    }
  }

  /**
   A whole search on a branch that grows meanwhile; `keys` lists the commits of the run steps
   uploaded.  With bounds in order it is a bisection; otherwise it scans forward from the good
   commit, and ends if the branch does not grow without bound.
   */
  method FindRegression(branch: nat -> seq<Commit>, outcome: Commit -> Outcome, g: nat, b: nat, ghost limit: nat)
      returns (step: Step, keys: seq<Commit>)
    requires OnlyAppended(branch) && g < |branch(0)| && b < |branch(0)|
    requires b <= g ==> forall k: nat :: |branch(k)| <= limit
    ensures Searched(branch, outcome, g, b, step, keys)
  {
    ghost var lo: nat, hi: nat, done: seq<nat> := g, b, [];
    StartUnderway(branch, outcome, g, b);
    var env := new Env(branch(0)[g], branch(0)[b]);
    BisectIndex(branch(0), branch(0)[g], branch(0)[b]);
    step := env.RunPipeline(branch(0));
    keys := [step.commit];
    var k := 0;
    while step.RunCommit?
      invariant Underway(branch, outcome, g, b, k, lo, hi, done, env.goodCommit, env.badCommit, step, keys)
      decreases Left(g, b, lo, hi, limit, step, keys)
    {
      step, keys, lo, hi, done := NextCheck(env, branch, outcome, g, b, k, limit, lo, hi, done, step, keys);
      k := k + 1;
    }
    EndSearched(branch, outcome, g, b, k, lo, hi, done, env.goodCommit, env.badCommit, step, keys);
  }
}
