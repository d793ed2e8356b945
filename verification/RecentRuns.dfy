// The recent-run index: a file rewritten on every admission.

module RecentRuns {
  import opened Wrappers
  import opened RunListing

  function Without(runs: seq<Summary>, id: string): seq<Summary> {
    if runs == [] then []
    else (if runs[0].id == id then [] else [runs[0]]) + Without(runs[1..], id)
  }

  function Cut(runs: seq<Summary>): seq<Summary> {
    runs[..Min(|runs|, MAX_RECENT_RUNS)]
  }

  /** `content` is None while the index cannot be read; the reader then starts from nothing. */
  class IndexFile {
    var content: Option<seq<Summary>>

    constructor (content: Option<seq<Summary>>)
      ensures this.content == content
    {
      this.content := content;
    }

    static function Known(content: Option<seq<Summary>>): seq<Summary> {
      if content.Some? then content.value else []
    }

    method Save(run: Summary)
      modifies this
      ensures content == Some(AfterSave(Known(old(content)), run))
    {
      var runs := Known(content);
      runs := Without(runs, run.id);
      runs := [run] + runs;
      content := Some(Cut(runs));
    }
  }

  function AfterSave(runs: seq<Summary>, run: Summary): seq<Summary> {
    Cut([run] + Without(runs, run.id))
  }

  function AfterSaves(saves: seq<Summary>): seq<Summary> {
    if saves == [] then [] else AfterSave(AfterSaves(saves[..|saves| - 1]), saves[|saves| - 1])
  }

  /** Save number `p` is the latest one of its id. */
  predicate IsLatest(saves: seq<Summary>, p: nat)
    requires p < |saves|
  {
    forall q :: p < q < |saves| ==> saves[q].id != saves[p].id
  }

  /** The latest save of every id among the first `n`, newest save first. */
  function LatestSaves(saves: seq<Summary>, n: nat): seq<Summary>
    requires n <= |saves|
  {
    if n == 0 then []
    else (if IsLatest(saves, n - 1) then [saves[n - 1]] else []) + LatestSaves(saves, n - 1)
  }

  lemma {:induction false} LatestSavesFacts(saves: seq<Summary>, n: nat)
    requires n <= |saves|
    ensures DistinctIds(LatestSaves(saves, n))
    ensures forall run :: run in LatestSaves(saves, n) ==>
      exists p :: 0 <= p < n && IsLatest(saves, p) && saves[p] == run
  {
    if n > 0 {
      LatestSavesFacts(saves, n - 1);
      var rest := LatestSaves(saves, n - 1);
      if IsLatest(saves, n - 1) {
        forall j | 0 <= j < |rest| ensures rest[j].id != saves[n - 1].id {
          assert rest[j] in rest;
        }
      }
    }
  }

  lemma {:induction false} WithoutConcat(a: seq<Summary>, b: seq<Summary>, id: string)
    ensures Without(a + b, id) == Without(a, id) + Without(b, id)
  {
    if a == [] {
      assert a + b == b;
    } else {
      assert (a + b)[1..] == a[1..] + b;
      WithoutConcat(a[1..], b, id);
    }
  }

  lemma {:induction false} LatestAfterOneMore(saves: seq<Summary>, run: Summary, n: nat)
    requires n <= |saves|
    ensures LatestSaves(saves + [run], n) == Without(LatestSaves(saves, n), run.id)
  {
    if n > 0 {
      var longer := saves + [run];
      LatestAfterOneMore(saves, run, n - 1);
      assert longer[n - 1] == saves[n - 1];
      if IsLatest(longer, n - 1) {
        assert longer[|saves|].id != longer[n - 1].id;
        forall q | n - 1 < q < |saves| ensures saves[q].id != saves[n - 1].id {
          assert longer[q] == saves[q];
        }
      } else if saves[n - 1].id != run.id {
        assert !IsLatest(saves, n - 1) by {
          var q :| n - 1 < q < |longer| && longer[q].id == longer[n - 1].id;
          assert longer[q] == saves[q];
        }
      }
      WithoutConcat(if IsLatest(saves, n - 1) then [saves[n - 1]] else [], LatestSaves(saves, n - 1), run.id);
    }
  }

  /** Cutting before removing one id loses nothing the later cut would keep. */
  lemma {:induction false} WithoutCut(runs: seq<Summary>, id: string, k: nat)
    requires DistinctIds(runs) && k < |runs|
    ensures |Without(runs, id)| >= k && |Without(runs[..k + 1], id)| >= k
    ensures Without(runs[..k + 1], id)[..k] == Without(runs, id)[..k]
  {
    assert runs[..k + 1] == [runs[0]] + runs[1..][..k];
    if runs[0].id == id {
      AbsentStays(runs[1..], id);
      AbsentStays(runs[1..][..k], id);
    } else if k > 0 {
      WithoutCut(runs[1..], id, k - 1);
    }
  }

  lemma {:induction false} AbsentStays(runs: seq<Summary>, id: string)
    requires forall i :: 0 <= i < |runs| ==> runs[i].id != id
    ensures Without(runs, id) == runs
  {
    if runs != [] {
      AbsentStays(runs[1..], id);
    }
  }

  /** After any saves the index is the latest save of each of the last twelve distinct ids,
      most recently saved first. */
  lemma {:induction false} IndexIsLastTwelve(saves: seq<Summary>)
    ensures AfterSaves(saves) == Cut(LatestSaves(saves, |saves|))
    ensures DistinctIds(AfterSaves(saves)) && |AfterSaves(saves)| == Min(|LatestSaves(saves, |saves|)|, 12)
  {
    if saves != [] {
      var n := |saves| - 1;
      var before, run := saves[..n], saves[n];
      IndexIsLastTwelve(before);
      LatestAfterOneMore(before, run, n);
      assert before + [run] == saves;
      var all := LatestSaves(before, n);
      LatestSavesFacts(before, n);
      if |all| > MAX_RECENT_RUNS {
        WithoutCut(all, run.id, MAX_RECENT_RUNS - 1);
        var w, v := Without(all, run.id), Without(Cut(all), run.id);
        assert Cut([run] + w) == [run] + w[..MAX_RECENT_RUNS - 1];
        assert Cut([run] + v) == [run] + v[..MAX_RECENT_RUNS - 1];
      } else {
        assert Cut(all) == all;
      }
      assert LatestSaves(saves, n + 1) == [run] + LatestSaves(saves, n);
    }
    LatestSavesFacts(saves, |saves|);
  }
}
