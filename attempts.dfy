/** The per-attempt results of `run_pip_download_deps` and the continuation
    policy of the attempt loop in `download_package_with_deps`
    (download_wheels.py:74-106, 191-269), over the sequence of outcomes the
    strategies would produce one after another. */
module Attempts {
  import opened Seqs

  /** The exceptions `subprocess.run` may raise (download_wheels.py:91-99). */
  datatype PipError = PipNotFound | UnexpectedError

  /** What one pip invocation gives back: an exit code or an exception,
      together with the measured duration of the call. */
  datatype PipResult =
    | Exited(returnCode: int, elapsed: real)
    | Raised(error: PipError, elapsed: real)

  /** One attempt: the package subdirectory could not be created, so pip was
      not invoked, or pip was invoked with the given result. */
  datatype Outcome = DirFailed | Invoked(result: PipResult)

  /** `run_pip_download_deps` returns true exactly for a pip call that exited
      with code 0 (download_wheels.py:79-81). */
  predicate Succeeded(o: Outcome) {
    o.Invoked? && o.result.Exited? && o.result.returnCode == 0
  }

  /** The final `download_success` of the attempt loop: some attempt
      succeeded (download_wheels.py:125, 220, 269). */
  predicate AnySucceeded(os: seq<Outcome>) {
    exists i :: 0 <= i < |os| && Succeeded(os[i])
  }

  /** The index of the first successful attempt, or `|os|` if none succeeds. */
  function FirstSuccess(os: seq<Outcome>): (k: nat)
    ensures k <= |os|
    ensures k < |os| ==> Succeeded(os[k])
    ensures forall i :: 0 <= i < k ==> !Succeeded(os[i])
  {
    if os == [] then 0
    else if Succeeded(os[0]) then 0
    else
      var k := FirstSuccess(os[1..]);
      assert forall i :: 1 <= i <= k ==> os[i] == os[1..][i - 1];
      1 + k
  }

  /** How many strategies the loop tries (download_wheels.py:191-193,
      254-257): all of them when `downloadAll` is set or nothing succeeds,
      otherwise up to and including the first success. */
  function AttemptsMade(os: seq<Outcome>, downloadAll: bool): (n: nat)
    ensures n <= |os|
    ensures downloadAll || !AnySucceeded(os) ==> n == |os|
    ensures !downloadAll && AnySucceeded(os) ==>
      0 < n && Succeeded(os[n - 1]) && forall i :: 0 <= i < n - 1 ==> !Succeeded(os[i])
  {
    var k := FirstSuccess(os);
    if downloadAll || k == |os| then |os| else k + 1
  }

  /** Stopping early never changes the verdict: the attempts made succeed
      somewhere exactly when some strategy would. */
  lemma AttemptsMadeKeepVerdict(os: seq<Outcome>, downloadAll: bool)
    ensures AnySucceeded(os[..AttemptsMade(os, downloadAll)]) <==> AnySucceeded(os)
  {
    var n := AttemptsMade(os, downloadAll);
    if AnySucceeded(os) {
      var k := FirstSuccess(os);
      assert os[..n][k] == os[k];
    } else {
      assert os[..n] == os;
    }
  }

  /** When nothing succeeds, every strategy is tried. */
  lemma AllFailAllTried(os: seq<Outcome>, downloadAll: bool)
    requires forall i :: 0 <= i < |os| ==> !Succeeded(os[i])
    ensures AttemptsMade(os, downloadAll) == |os|
  {
  }

  /** `attempt_success_count` after the given attempts. */
  function SuccessCount(os: seq<Outcome>): (c: nat)
    ensures c <= |os|
  {
    if os == [] then 0
    else SuccessCount(os[..|os| - 1]) + (if Succeeded(os[|os| - 1]) then 1 else 0)
  }

  /** The count is zero exactly while nothing has succeeded. */
  lemma {:induction false} SuccessCountZero(os: seq<Outcome>)
    ensures SuccessCount(os) == 0 <==> !AnySucceeded(os)
  {
    if os != [] {
      var init := os[..|os| - 1];
      SuccessCountZero(init);
      if AnySucceeded(init) {
        var i :| 0 <= i < |init| && Succeeded(init[i]);
        assert os[i] == init[i];
      }
      if AnySucceeded(os) && !Succeeded(os[|os| - 1]) {
        var i :| 0 <= i < |os| && Succeeded(os[i]);
        assert init[i] == os[i];
      }
    }
  }

  /** The first-success actions run on exactly one attempt: the count first
      reaches 1 at the first success and is 0 before it. */
  lemma FirstSuccessCountsOne(os: seq<Outcome>)
    requires AnySucceeded(os)
    ensures var k := FirstSuccess(os);
      k < |os| && SuccessCount(os[..k]) == 0 && SuccessCount(os[..k + 1]) == 1
  {
    var k := FirstSuccess(os);
    var i :| 0 <= i < |os| && Succeeded(os[i]);
    assert k <= i;
    var before := os[..k];
    assert !AnySucceeded(before) by {
      forall j | 0 <= j < k ensures !Succeeded(before[j]) {
        assert before[j] == os[j];
      }
    }
    SuccessCountZero(before);
    var upTo := os[..k + 1];
    assert upTo[..k] == before;
    assert Succeeded(upTo[k]);
  }

  /** `pip_call_times` entries of some attempts: one duration per pip
      invocation, failures included, none for a directory failure
      (download_wheels.py:100-103). */
  function Times(os: seq<Outcome>): (ts: seq<real>)
    ensures |ts| <= |os|
    ensures (forall i :: 0 <= i < |os| ==> os[i].Invoked?) ==> |ts| == |os|
    ensures (forall i :: 0 <= i < |os| ==> os[i].DirFailed?) ==> ts == []
  {
    if os == [] then []
    else
      var last := os[|os| - 1];
      Times(os[..|os| - 1]) + (if last.Invoked? then [last.result.elapsed] else [])
  }

  /** One duration is recorded per pip invocation and only for those. */
  lemma {:induction false} TimesCountsInvocations(os: seq<Outcome>)
    ensures |Times(os)| == |os| <==> forall i :: 0 <= i < |os| ==> os[i].Invoked?
  {
    if os != [] {
      var init := os[..|os| - 1];
      TimesCountsInvocations(init);
      if |Times(os)| == |os| {
        assert os[|os| - 1].Invoked?;
        assert forall i :: 0 <= i < |init| ==> init[i] == os[i];
      }
    }
  }

  /** Durations are recorded in the order of the calls. */
  lemma {:induction false} TimesAppend(a: seq<Outcome>, b: seq<Outcome>)
    ensures Times(a + b) == Times(a) + Times(b)
    decreases |b|
  {
    if b == [] {
      assert a + b == a;
    } else {
      var c := a + b;
      var last := b[|b| - 1];
      InitOfAppend(a, b);
      assert c[|c| - 1] == last;
      TimesAppend(a, b[..|b| - 1]);
      var tail := if last.Invoked? then [last.result.elapsed] else [];
      assert Times(a) + Times(b[..|b| - 1]) + tail == Times(a) + (Times(b[..|b| - 1]) + tail);
    }
  }

  /** The first success is found at `k` when attempt `k` succeeds and none
      before it does. */
  lemma FirstSuccessAt(os: seq<Outcome>, k: nat)
    requires k < |os| && Succeeded(os[k]) && !AnySucceeded(os[..k])
    ensures FirstSuccess(os) == k
  {
  }

  /** What one more attempt adds to the verdict, the success count and the
      recorded durations. */
  lemma AttemptStep(tried: seq<Outcome>, o: Outcome)
    ensures AnySucceeded(tried + [o]) <==> AnySucceeded(tried) || Succeeded(o)
    ensures SuccessCount(tried + [o]) == SuccessCount(tried) + (if Succeeded(o) then 1 else 0)
    ensures Times(tried + [o]) == Times(tried) + Times([o])
  {
    var t := tried + [o];
    assert t[..|tried|] == tried;
    assert t[|tried|] == o;
    assert [o][..0] == [];
    if AnySucceeded(t) && !Succeeded(o) {
      var i :| 0 <= i < |t| && Succeeded(t[i]);
      assert tried[i] == t[i];
    }
    if AnySucceeded(tried) {
      var i :| 0 <= i < |tried| && Succeeded(tried[i]);
      assert t[i] == tried[i];
    }
  }

  /** A single attempt records one duration exactly when pip was invoked. */
  lemma TimesOne(o: Outcome)
    ensures Times([o]) == if o.Invoked? then [o.result.elapsed] else []
  {
    assert [o][..0] == [];
  }
}
