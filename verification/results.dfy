/**
  The results page: crew filter, newest-first ordering, the input summary
  in each result's title, download file names, delete and re-run.
 */
module Results {
  import opened Base
  import opened Strings
  import opened Seqs

  /**
    A stored run.  `createdAt` is the parsed ISO timestamp, kept only as a
    totally ordered key; `inputs` are the run's inputs in dict order.
   */
  datatype RunResult = RunResult(id: string, crewName: string, createdAt: int, inputs: seq<(string, string)>)

  /** The results whose crew name is selected, in order, when some name is selected; all results otherwise. */
  function CrewFilter(results: seq<RunResult>, selected: seq<string>): (r: seq<RunResult>)
    ensures |selected| == 0 ==> r == results
    ensures |selected| > 0 ==> forall x :: x in r <==> x in results && x.crewName in selected
    ensures |selected| > 0 ==>
      forall x :: multiset(r)[x] == if x.crewName in selected then multiset(results)[x] else 0
    ensures IsSubsequence(r, results)
  {
    if |selected| == 0 then
      SubsequenceRefl(results);
      results
    else KeepCrews(results, selected)
  }

  /** The results of one of the selected crews, in order: every copy of each is kept. */
  function KeepCrews(results: seq<RunResult>, selected: seq<string>): (r: seq<RunResult>)
    ensures forall x :: x in r <==> x in results && x.crewName in selected
    ensures forall x :: multiset(r)[x] == if x.crewName in selected then multiset(results)[x] else 0
    ensures IsSubsequence(r, results)
    decreases |results|
  {
    if |results| == 0 then []
    else
      var rest := KeepCrews(results[1..], selected);
      assert results == [results[0]] + results[1..];
      if results[0].crewName in selected then
        var r := [results[0]] + rest;
        assert r[1..] == rest;
        r
      else
        SubsequenceSkip(rest, results[0], results[1..]);
        rest
  }

  /** Newest first: creation times never increase along the list. */
  predicate NewestFirst(xs: seq<RunResult>)
  {
    forall i, j :: 0 <= i < j < |xs| ==> xs[i].createdAt >= xs[j].createdAt
  }

  /** The results created at time `t`, in list order. */
  function AtTime(xs: seq<RunResult>, t: int): (r: seq<RunResult>)
  {
    if |xs| == 0 then []
    else if xs[0].createdAt == t then [xs[0]] + AtTime(xs[1..], t)
    else AtTime(xs[1..], t)
  }

  /** Put `x` in front of the first element that is not newer than it. */
  function InsertNewest(x: RunResult, xs: seq<RunResult>): (r: seq<RunResult>)
    requires NewestFirst(xs)
    ensures NewestFirst(r)
    ensures multiset(r) == multiset(xs) + multiset{x}
    ensures r[0] == x || (|xs| > 0 && r[0] == xs[0])
  {
    if |xs| == 0 || xs[0].createdAt <= x.createdAt then
      var r := [x] + xs;
      assert r[1..] == xs;
      r
    else
      var rest := InsertNewest(x, xs[1..]);
      assert xs == [xs[0]] + xs[1..];
      assert rest[0].createdAt <= xs[0].createdAt;
      var r := [xs[0]] + rest;
      assert r[1..] == rest;
      NewestFirstCons(xs[0], rest);
      r
  }

  lemma NewestFirstCons(x: RunResult, xs: seq<RunResult>)
    requires NewestFirst(xs)
    requires |xs| > 0 ==> xs[0].createdAt <= x.createdAt
    ensures NewestFirst([x] + xs)
  {
    var r := [x] + xs;
    forall i, j | 0 <= i < j < |r|
      ensures r[i].createdAt >= r[j].createdAt
    {
      if i == 0 {
        assert r[j] == xs[j - 1];
        assert xs[0].createdAt >= xs[j - 1].createdAt;
      } else {
        assert r[i] == xs[i - 1] && r[j] == xs[j - 1];
      }
    }
  }

  /** Inserting `x` puts it ahead of every result created at the same time. */
  lemma {:induction false} InsertNewestAtTime(x: RunResult, xs: seq<RunResult>, t: int)
    requires NewestFirst(xs)
    ensures AtTime(InsertNewest(x, xs), t) == if x.createdAt == t then [x] + AtTime(xs, t) else AtTime(xs, t)
    decreases |xs|
  {
    var r := InsertNewest(x, xs);
    if |xs| == 0 || xs[0].createdAt <= x.createdAt {
      assert r[1..] == xs;
      if x.createdAt != t && |xs| > 0 {
        assert r[0] == x;
      }
    } else {
      InsertNewestAtTime(x, xs[1..], t);
      assert r[1..] == InsertNewest(x, xs[1..]);
    }
  }

  /**
    `sorted(results, key=created_at, reverse=True)`: Python's sort is
    stable under `reverse=True`, so results created at the same time keep
    their relative order.
   */
  function SortNewestFirst(xs: seq<RunResult>): (r: seq<RunResult>)
    ensures NewestFirst(r)
    ensures multiset(r) == multiset(xs)
  {
    if |xs| == 0 then []
    else
      var rest := SortNewestFirst(xs[1..]);
      assert xs == [xs[0]] + xs[1..];
      InsertNewest(xs[0], rest)
  }

  /** The sort is stable: the results created at any one time keep their relative order. */
  lemma {:induction false} SortIsStable(xs: seq<RunResult>, t: int)
    ensures AtTime(SortNewestFirst(xs), t) == AtTime(xs, t)
    decreases |xs|
  {
    if |xs| > 0 {
      SortIsStable(xs[1..], t);
      InsertNewestAtTime(xs[0], SortNewestFirst(xs[1..]), t);
    }
  }

  /** Sorting a list that is already newest-first changes nothing. */
  lemma {:induction false} SortSortedIsIdentity(xs: seq<RunResult>)
    requires NewestFirst(xs)
    ensures SortNewestFirst(xs) == xs
    decreases |xs|
  {
    if |xs| > 0 {
      SortSortedIsIdentity(xs[1..]);
    }
  }

  /** `v` if it fits in `width` characters, else its first `width` characters and `"..."`. */
  function Truncate(v: string, width: nat): (r: string)
    ensures |v| <= width ==> r == v
    ensures |v| > width ==> |r| == width + 3 && r[..width] == v[..width] && r[width..] == "..."
  {
    if |v| <= width then v else v[..width] + "..."
  }

  /** Forty characters shared among `n` inputs (integer division), but never fewer than ten each. */
  function SummaryWidth(n: nat): (w: nat)
    requires n > 0
    ensures w >= 10
    ensures w == 10 || w * n <= 40
    ensures w > 10 ==> w * n <= 40 < (w + 1) * n
    ensures 11 * n <= 40 ==> w > 10
  {
    assert 40 == (40 / n) * n + 40 % n;
    if 40 / n > 10 then 40 / n else 10
  }

  /** One `"key: value"` part, the value truncated to `width`. */
  function SummaryPart(item: (string, string), width: nat): (r: string)
    ensures StartsWith(r, item.0 + ": ")
    ensures r[|item.0| + 2..] == Truncate(item.1, width)
  {
    var r := item.0 + ": " + Truncate(item.1, width);
    assert r[..|item.0 + ": "|] == item.0 + ": ";
    r
  }

  function SummaryParts(items: seq<(string, string)>, width: nat): (r: seq<string>)
    ensures |r| == |items|
    ensures forall i :: 0 <= i < |items| ==> r[i] == SummaryPart(items[i], width)
  {
    if |items| == 0 then [] else [SummaryPart(items[0], width)] + SummaryParts(items[1..], width)
  }

  /**
    The input summary in a result's title: nothing for no inputs; one
    input shows 30 characters of its value; several inputs share a width
    of forty characters, at least ten each.
   */
  function InputSummary(inputs: seq<(string, string)>): (r: string)
    ensures |inputs| == 0 <==> r == ""
    ensures |inputs| == 1 ==>
      r == " | " + inputs[0].0 + ": " + Take(inputs[0].1, 30) + (if |inputs[0].1| > 30 then "..." else "")
    ensures |inputs| == 1 ==> r == " | " + SummaryPart(inputs[0], 30)
    ensures |inputs| >= 2 ==> r == " | " + Join(SummaryParts(inputs, SummaryWidth(|inputs|)), " | ")
  {
    if |inputs| == 0 then ""
    else if |inputs| == 1 then
      var (key, value) := inputs[0];
      " | " + key + ": " + Take(value, 30) + (if |value| > 30 then "..." else "")
    else
      var parts := SummaryParts(inputs, SummaryWidth(|inputs|));
      assert |Join(parts, " | ")| >= 0;
      " | " + Join(parts, " | ")
  }

  /** A single input is summarised exactly like one part of a wider summary with width 30. */
  lemma SingleInputIsOnePart(key: string, value: string)
    ensures InputSummary([(key, value)]) == " | " + Join(SummaryParts([(key, value)], 30), " | ")
  {
  }

  /** The download file name: crew name, an underscore, the result id and the extension. */
  function DownloadName(r: RunResult, ext: string): (name: string)
    requires ext in [".json", ".md", ".txt"]
    ensures StartsWith(name, r.crewName + "_" + r.id)
    ensures name[|r.crewName| + 1 + |r.id|..] == ext
  {
    var stem := r.crewName + "_" + r.id;
    var name := stem + ext;
    assert name[..|stem|] == stem;
    name
  }

  /** The three download names of a result differ exactly in their extension. */
  lemma DownloadNamesDistinct(r: RunResult, e1: string, e2: string)
    requires e1 in [".json", ".md", ".txt"] && e2 in [".json", ".md", ".txt"]
    ensures DownloadName(r, e1) == DownloadName(r, e2) <==> e1 == e2
  {
    var n := |r.crewName| + 1 + |r.id|;
    if DownloadName(r, e1) == DownloadName(r, e2) {
      assert DownloadName(r, e1)[n..] == DownloadName(r, e2)[n..];
    }
  }

  /** `results.remove(result)` after `delete_result`: the first equal entry goes, the rest keep their order. */
  function DeleteResult(results: seq<RunResult>, target: RunResult): (r: seq<RunResult>)
    ensures target !in results ==> r == results
    ensures target in results ==> |r| == |results| - 1 && multiset(r) == multiset(results) - multiset{target}
    ensures target in results ==>
      exists i :: 0 <= i < |results| && results[i] == target && target !in results[..i] &&
        r == results[..i] + results[i + 1..]
  {
    RemoveFirst(results, target)
  }

  /** A result with a unique entry is gone after its delete. */
  lemma DeleteUniqueResult(results: seq<RunResult>, target: RunResult)
    requires multiset(results)[target] == 1
    ensures target !in DeleteResult(results, target)
  {
    RemoveFirstOnly(results, target);
  }

  /** The session values the re-run button writes. */
  datatype KickoffState = KickoffState(selectedCrewName: Option<string>, placeholders: map<string, string>, page: string)

  function PlaceholderKey(key: string): string
  {
    "placeholder_" + key
  }

  /** The placeholder keys the inputs write. */
  function PlaceholderKeys(inputs: seq<(string, string)>): (r: set<string>)
    ensures forall i :: 0 <= i < |inputs| ==> PlaceholderKey(inputs[i].0) in r
  {
    if |inputs| == 0 then {} else {PlaceholderKey(inputs[0].0)} + PlaceholderKeys(inputs[1..])
  }

  /** The inputs' placeholder assignments, in order (a later equal key overwrites an earlier one). */
  function FillPlaceholders(placeholders: map<string, string>, inputs: seq<(string, string)>): (r: map<string, string>)
    ensures r.Keys == placeholders.Keys + PlaceholderKeys(inputs)
    ensures forall k :: k in placeholders && k !in PlaceholderKeys(inputs) ==> r[k] == placeholders[k]
    decreases |inputs|
  {
    if |inputs| == 0 then placeholders
    else FillPlaceholders(placeholders[PlaceholderKey(inputs[0].0) := inputs[0].1], inputs[1..])
  }

  /** The keys of `inputs` are pairwise distinct, as a dict's are. */
  predicate DistinctKeys(inputs: seq<(string, string)>)
  {
    forall i, j :: 0 <= i < j < |inputs| ==> inputs[i].0 != inputs[j].0
  }

  /** With distinct keys every input lands in its own placeholder. */
  lemma {:induction false} FillPlaceholdersValues(placeholders: map<string, string>, inputs: seq<(string, string)>)
    requires DistinctKeys(inputs)
    ensures var r := FillPlaceholders(placeholders, inputs);
      forall i :: 0 <= i < |inputs| ==> r[PlaceholderKey(inputs[i].0)] == inputs[i].1
    decreases |inputs|
  {
    if |inputs| > 0 {
      var p1 := placeholders[PlaceholderKey(inputs[0].0) := inputs[0].1];
      FillPlaceholdersValues(p1, inputs[1..]);
      var r := FillPlaceholders(p1, inputs[1..]);
      forall i | 0 <= i < |inputs|
        ensures r[PlaceholderKey(inputs[i].0)] == inputs[i].1
      {
        if i == 0 {
          PlaceholderKeyAbsent(inputs[0].0, inputs[1..]);
        } else {
          assert inputs[i] == inputs[1..][i - 1];
        }
      }
    }
  }

  lemma PlaceholderKeyInjective(a: string, b: string)
    requires a != b
    ensures PlaceholderKey(a) != PlaceholderKey(b)
  {
    assert PlaceholderKey(a)[12..] == a;
    assert PlaceholderKey(b)[12..] == b;
  }

  /** A key that no input has gets no placeholder. */
  lemma {:induction false} PlaceholderKeyAbsent(key: string, inputs: seq<(string, string)>)
    requires forall i :: 0 <= i < |inputs| ==> inputs[i].0 != key
    ensures PlaceholderKey(key) !in PlaceholderKeys(inputs)
    decreases |inputs|
  {
    if |inputs| > 0 {
      PlaceholderKeyInjective(key, inputs[0].0);
      PlaceholderKeyAbsent(key, inputs[1..]);
    }
  }

  /** The re-run button: select the result's crew, copy its inputs into placeholders, go to Kickoff!. */
  function Rerun(st: KickoffState, r: RunResult): (st': KickoffState)
    ensures st'.selectedCrewName == Some(r.crewName) && st'.page == "Kickoff!"
    ensures st'.placeholders.Keys == st.placeholders.Keys + PlaceholderKeys(r.inputs)
    ensures DistinctKeys(r.inputs) ==>
      forall i :: 0 <= i < |r.inputs| ==> st'.placeholders[PlaceholderKey(r.inputs[i].0)] == r.inputs[i].1
    ensures forall k :: k in st.placeholders && k !in PlaceholderKeys(r.inputs) ==> st'.placeholders[k] == st.placeholders[k]
  {
    var st' := KickoffState(Some(r.crewName), FillPlaceholders(st.placeholders, r.inputs), "Kickoff!");
    if DistinctKeys(r.inputs) then
      FillPlaceholdersValues(st.placeholders, r.inputs);
      st'
    else st'
  }
}
