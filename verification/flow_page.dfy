/**
  The flows page: the flow list's create, delete and version-update
  handlers, and the sketch pad that turns a comma-separated node list and
  `src>dst` edge lines into DOT text.
 */
module FlowPage {
  import opened Base
  import opened Strings
  import opened Seqs
  import opened Flows

  /** "New flow": append a default flow named after the new list length. */
  function CreateFlow(flows: seq<Flow>, freshId: string, now: string): (r: seq<Flow>)
    ensures |r| == |flows| + 1 && r[..|flows|] == flows
    ensures r[|flows|].name == "Flow " + NatToString(|flows| + 1)
    ensures IsValid(r[|flows|])
    ensures r[|flows|].id == "F_" + freshId
  {
    flows + [NewFlow("Flow " + NatToString(|flows| + 1), freshId, now)]
  }

  /** "Delete": drop every flow with the id, keeping the rest in order. */
  function DeleteFlow(flows: seq<Flow>, id: string): (r: seq<Flow>)
    ensures forall f :: f in r <==> f in flows && f.id != id
    ensures (forall i :: 0 <= i < |flows| ==> flows[i].id != id) ==> r == flows
    ensures IsSubsequence(r, flows)
  {
    if |flows| == 0 then []
    else
      var rest := DeleteFlow(flows[1..], id);
      assert flows == [flows[0]] + flows[1..];
      if flows[0].id == id then
        SubsequenceSkip(rest, flows[0], flows[1..]);
        rest
      else
        var r := [flows[0]] + rest;
        assert r[1..] == rest;
        r
  }

  /** Whether a flow's id differs from `id`. */
  function OtherId(id: string): Flow -> bool
  {
    (f: Flow) => f.id != id
  }

  /**
    Delete keeps exactly the flows with another id, in order, every copy of
    each: it is the filter, so its multiset is that of the other flows.
   */
  lemma {:induction false} DeleteFlowFilters(flows: seq<Flow>, id: string)
    ensures DeleteFlow(flows, id) == Filter(flows, OtherId(id))
    ensures forall f :: multiset(DeleteFlow(flows, id))[f] == if f.id == id then 0 else multiset(flows)[f]
    decreases |flows|
  {
    if |flows| > 0 {
      DeleteFlowFilters(flows[1..], id);
      var rest := Filter(flows[1..], OtherId(id));
      if flows[0].id == id {
        assert Filter(flows, OtherId(id)) == rest;
      } else {
        assert Filter(flows, OtherId(id)) == [flows[0]] + rest;
        assert DeleteFlow(flows, id) == [flows[0]] + DeleteFlow(flows[1..], id);
      }
    }
  }

  /** Deleting a freshly created flow restores the list, when its id was not taken. */
  lemma {:induction false} DeleteUndoesCreate(flows: seq<Flow>, freshId: string, now: string)
    requires forall i :: 0 <= i < |flows| ==> flows[i].id != "F_" + freshId
    ensures DeleteFlow(CreateFlow(flows, freshId, now), "F_" + freshId) == flows
    decreases |flows|
  {
    var id := "F_" + freshId;
    var created := NewFlow("Flow " + NatToString(|flows| + 1), freshId, now);
    DeleteAppended(flows, created, id);
  }

  lemma {:induction false} DeleteAppended(flows: seq<Flow>, f: Flow, id: string)
    requires forall i :: 0 <= i < |flows| ==> flows[i].id != id
    requires f.id == id
    ensures DeleteFlow(flows + [f], id) == flows
    decreases |flows|
  {
    var all := flows + [f];
    if |flows| == 0 {
      assert all[1..] == [];
      assert DeleteFlow(all, id) == DeleteFlow(all[1..], id);
    } else {
      DeleteAppended(flows[1..], f, id);
      assert all[0] == flows[0] && all[1..] == flows[1..] + [f];
      assert DeleteFlow(all, id) == [flows[0]] + DeleteFlow(flows[1..] + [f], id);
      assert flows == [flows[0]] + flows[1..];
    }
  }

  /** `flow_id` names the flow at index `j` and no earlier one. */
  predicate FirstWithId(flows: seq<Flow>, id: string, j: int)
  {
    0 <= j < |flows| && flows[j].id == id && forall k :: 0 <= k < j ==> flows[k].id != id
  }

  /** The version field's change handler: the first flow with the id takes the new version. */
  function UpdateVersion(flows: seq<Flow>, id: string, version: string): (r: seq<Flow>)
    ensures |r| == |flows|
    ensures forall j :: 0 <= j < |flows| ==>
      r[j] == if FirstWithId(flows, id, j) then flows[j].(version := version) else flows[j]
  {
    if |flows| == 0 then []
    else if flows[0].id == id then [flows[0].(version := version)] + flows[1..]
    else
      var rest := UpdateVersion(flows[1..], id, version);
      FirstWithIdShift(flows, id);
      [flows[0]] + rest
  }

  /** Past a head with another id, the first match moves down by one. */
  lemma FirstWithIdShift(flows: seq<Flow>, id: string)
    requires |flows| > 0 && flows[0].id != id
    ensures !FirstWithId(flows, id, 0)
    ensures forall j :: 1 <= j < |flows| ==> (FirstWithId(flows, id, j) <==> FirstWithId(flows[1..], id, j - 1))
  {
    forall j | 1 <= j < |flows|
      ensures FirstWithId(flows, id, j) <==> FirstWithId(flows[1..], id, j - 1)
    {
      assert forall k :: 1 <= k < j ==> flows[k] == flows[1..][k - 1];
    }
  }

  /** An update keeps every id, so a later update or delete finds the same flows. */
  lemma UpdateVersionKeepsIds(flows: seq<Flow>, id: string, version: string)
    ensures forall j :: 0 <= j < |flows| ==> UpdateVersion(flows, id, version)[j].id == flows[j].id
  {
  }

  /** A second update of the same flow overwrites the first. */
  lemma UpdateVersionOverwrites(flows: seq<Flow>, id: string, v1: string, v2: string)
    ensures UpdateVersion(UpdateVersion(flows, id, v1), id, v2) == UpdateVersion(flows, id, v2)
  {
    var once := UpdateVersion(flows, id, v1);
    var twice := UpdateVersion(once, id, v2);
    var direct := UpdateVersion(flows, id, v2);
    UpdateVersionKeepsIds(flows, id, v1);
    assert forall j :: 0 <= j < |flows| ==> (FirstWithId(once, id, j) <==> FirstWithId(flows, id, j));
    assert forall j :: 0 <= j < |flows| ==> twice[j] == direct[j];
  }

  /** The non-empty stripped pieces, in order. */
  function KeepStripped(pieces: seq<string>): (r: seq<string>)
    ensures forall i :: 0 <= i < |r| ==> r[i] != "" && Trimmed(r[i])
    ensures |r| <= |pieces|
  {
    if |pieces| == 0 then []
    else
      var s := Strip(pieces[0]);
      var rest := KeepStripped(pieces[1..]);
      if s != "" then
        AllCons(s, rest, CleanPiece);
        [s] + rest
      else rest
  }

  /** A piece worth keeping: not empty, no whitespace at either end. */
  function CleanPiece(p: string): bool
  {
    p != "" && Trimmed(p)
  }

  /** The first piece, stripped, is kept exactly when it is not blank. */
  lemma KeepStrippedFirst(pieces: seq<string>)
    requires |pieces| > 0
    ensures KeepStripped(pieces) ==
      if NonBlank(Strip(pieces[0])) then [Strip(pieces[0])] + KeepStripped(pieces[1..]) else KeepStripped(pieces[1..])
  {
  }

  /** Whether a stripped piece names something. */
  function NonBlank(p: string): bool
  {
    p != ""
  }

  /** Keeping the non-empty stripped pieces is stripping every piece, then dropping the blanks. */
  lemma {:induction false} KeepStrippedFilters(pieces: seq<string>)
    ensures KeepStripped(pieces) == Filter(Map(pieces, Strip), NonBlank)
    decreases |pieces|
  {
    if |pieces| > 0 {
      KeepStrippedFilters(pieces[1..]);
      FilterMapFirst(pieces, Strip, NonBlank);
      KeepStrippedFirst(pieces);
    }
  }

  /** The comma-separated names of a sketch line, each stripped, blanks dropped. */
  function SketchNodes(text: string): (r: seq<string>)
    ensures forall i :: 0 <= i < |r| ==> r[i] != "" && Trimmed(r[i]) && ',' !in r[i]
  {
    var pieces := Split(text, ',');
    var r := KeepStripped(pieces);
    StrippedPiecesHaveNo(pieces, ',');
    r
  }

  /** The sketch's nodes: split on `','`, strip every piece, drop the blank ones, in order. */
  lemma SketchNodesFilters(text: string)
    ensures SketchNodes(text) == Filter(Map(Split(text, ','), Strip), NonBlank)
  {
    KeepStrippedFilters(Split(text, ','));
  }

  lemma {:induction false} StrippedPiecesHaveNo(pieces: seq<string>, c: char)
    requires forall i :: 0 <= i < |pieces| ==> c !in pieces[i]
    ensures forall i :: 0 <= i < |KeepStripped(pieces)| ==> c !in KeepStripped(pieces)[i]
    decreases |pieces|
  {
    if |pieces| > 0 {
      assert forall i :: 0 <= i < |pieces| - 1 ==> pieces[1..][i] == pieces[i + 1];
      StrippedPiecesHaveNo(pieces[1..], c);
      StripChars(pieces[0], c);
      KeepStrippedFirst(pieces);
      if Strip(pieces[0]) != "" {
        AllCons(Strip(pieces[0]), KeepStripped(pieces[1..]), Lacks(c));
      }
    }
  }

  /** Whether a text is free of `c`. */
  function Lacks(c: char): string -> bool
  {
    (p: string) => c !in p
  }

  /** `strip` only removes characters. */
  lemma StripChars(s: string, c: char)
    requires c !in s
    ensures c !in Strip(s)
  {
    var t := TrimRight(s, IsSpace);
    var u := TrimLeft(t, IsSpace);
    assert forall k :: 0 <= k < |t| ==> t[k] == s[k];
    assert forall k :: 0 <= k < |u| ==> u[k] == t[|t| - |u| + k];
  }

  lemma {:induction false} KeepStrippedKeeps(pieces: seq<string>)
    requires forall i :: 0 <= i < |pieces| ==> pieces[i] != "" && Trimmed(pieces[i])
    ensures KeepStripped(pieces) == pieces
    decreases |pieces|
  {
    if |pieces| > 0 {
      KeepStrippedKeeps(pieces[1..]);
      KeepStrippedCons(pieces[0], pieces[1..]);
      assert pieces == [pieces[0]] + pieces[1..];
    }
  }

  /** A clean first piece is kept as it is. */
  lemma KeepStrippedCons(p: string, pieces: seq<string>)
    requires p != "" && Trimmed(p)
    ensures KeepStripped([p] + pieces) == [p] + KeepStripped(pieces)
  {
    StripKeeps(p);
    assert ([p] + pieces)[1..] == pieces;
  }

  /** A comma-joined list of clean node names parses back to itself. */
  lemma SketchNodesRoundTrip(names: seq<string>)
    requires forall i :: 0 <= i < |names| ==> names[i] != "" && Trimmed(names[i]) && ',' !in names[i]
    ensures SketchNodes(Join(names, ",")) == names
  {
    if |names| == 0 {
      assert Split("", ',') == [""];
      assert Strip("") == "";
    } else {
      assert "," == [','];
      SplitJoin(names, ',');
      KeepStrippedKeeps(names);
    }
  }

  /** The characters `str.splitlines` breaks at. */
  predicate IsLineBreak(ch: char)
  {
    ch == '\n' || ch == '\r' || ch == '\U{0b}' || ch == '\U{0c}'
    || ch == '\U{1c}' || ch == '\U{1d}' || ch == '\U{1e}'
    || ch == '\U{85}' || ch == '\U{2028}' || ch == '\U{2029}'
  }

  /** Index of the first line break, or `|s|` when there is none. */
  function LineEnd(s: string): (i: nat)
    ensures i <= |s|
    ensures forall k :: 0 <= k < i ==> !IsLineBreak(s[k])
    ensures i < |s| ==> IsLineBreak(s[i])
  {
    if |s| == 0 || IsLineBreak(s[0]) then 0 else 1 + LineEnd(s[1..])
  }

  /** Python's `str.splitlines()`: `"\r\n"` is one break and a final break opens no empty line. */
  function SplitLines(s: string): (lines: seq<string>)
    ensures forall i :: 0 <= i < |lines| ==> OneLine(lines[i])
    decreases |s|
  {
    if |s| == 0 then []
    else
      var i := LineEnd(s);
      if i == |s| then [s]
      else
        var next := if s[i] == '\r' && i + 1 < |s| && s[i + 1] == '\n' then i + 2 else i + 1;
        [s[..i]] + SplitLines(s[next..])
  }

  /** Each line followed by a newline, as a text area holds them. */
  function Terminated(lines: seq<string>): string
  {
    if |lines| == 0 then "" else lines[0] + "\n" + Terminated(lines[1..])
  }

  predicate OneLine(s: string)
  {
    forall k :: 0 <= k < |s| ==> !IsLineBreak(s[k])
  }

  /** Splitting newline-terminated lines gives the lines back. */
  lemma {:induction false} SplitLinesTerminated(lines: seq<string>)
    requires forall i :: 0 <= i < |lines| ==> OneLine(lines[i])
    ensures SplitLines(Terminated(lines)) == lines
    decreases |lines|
  {
    if |lines| > 0 {
      var l := lines[0];
      var rest := Terminated(lines[1..]);
      var s := Terminated(lines);
      assert s == l + "\n" + rest;
      assert s[|l|] == '\n';
      assert forall k :: 0 <= k < |l| ==> s[k] == l[k];
      assert LineEnd(s) == |l|;
      assert s[..|l|] == l;
      assert s[|l| + 1..] == rest;
      SplitLinesTerminated(lines[1..]);
      assert lines == [l] + lines[1..];
    }
  }

  /**
    A line followed by a break, `"\n"` or the two-character `"\r\n"`, is
    split off as one line; the break itself belongs to no line.
   */
  lemma SplitLinesHead(l: string, brk: string, rest: string)
    requires OneLine(l)
    requires brk == "\n" || brk == "\r\n"
    ensures SplitLines(l + brk + rest) == [l] + SplitLines(rest)
  {
    var s := l + brk + rest;
    assert s[|l|] == brk[0];
    assert forall k :: 0 <= k < |l| ==> s[k] == l[k];
    assert LineEnd(s) == |l|;
    assert s[..|l|] == l;
    if brk == "\r\n" {
      assert s[|l| + 1] == '\n';
      assert s[|l| + 2..] == rest;
    } else {
      assert s[|l| + 1..] == rest;
    }
  }

  /**
    Lines joined with `"\n"` and no final break, as the default edge text
    is written, split back into the same lines when the last is not empty.
   */
  lemma {:induction false} SplitLinesJoined(lines: seq<string>)
    requires forall i :: 0 <= i < |lines| ==> OneLine(lines[i])
    requires |lines| > 0 ==> lines[|lines| - 1] != ""
    ensures SplitLines(Join(lines, "\n")) == lines
    decreases |lines|
  {
    if |lines| == 1 {
      assert Join(lines, "\n") == lines[0];
      assert LineEnd(lines[0]) == |lines[0]|;
    } else if |lines| > 1 {
      var rest := Join(lines[1..], "\n");
      assert Join(lines, "\n") == lines[0] + "\n" + rest;
      SplitLinesHead(lines[0], "\n", rest);
      assert lines[1..][|lines| - 2] == lines[|lines| - 1];
      SplitLinesJoined(lines[1..]);
      assert lines == [lines[0]] + lines[1..];
    }
  }

  /** An index of `c` in `s`, the first one, if any. */
  function CharIndex(s: string, c: char): (r: Option<nat>)
    ensures r.None? <==> c !in s
    ensures r.Some? ==> r.value < |s| && s[r.value] == c && c !in s[..r.value]
  {
    if |s| == 0 then None
    else if s[0] == c then
      assert s[..0] == [];
      Some(0)
    else
      match CharIndex(s[1..], c)
      case None => None
      case Some(k) =>
        assert s[..k + 1] == [s[0]] + s[1..][..k];
        Some(k + 1)
  }

  /** An edge line: ignored without `'>'`, else split at the first `'>'` with both sides stripped. */
  function EdgeOf(line: string): (r: Option<(string, string)>)
    ensures r.None? <==> '>' !in line
    ensures r.Some? ==> '>' !in r.value.0
    ensures r.Some? && '\n' !in line ==> '\n' !in r.value.0 && '\n' !in r.value.1
  {
    match CharIndex(line, '>')
    case None => None
    case Some(i) =>
      StripChars(line[..i], '>');
      EdgeEndsOneLine(line, i);
      Some((Strip(line[..i]), Strip(line[i + 1..])))
  }

  /** Cutting a line without line breaks at `i` and stripping both sides leaves none either. */
  lemma EdgeEndsOneLine(line: string, i: nat)
    requires i < |line|
    ensures '\n' !in line ==> '\n' !in Strip(line[..i]) && '\n' !in Strip(line[i + 1..])
  {
    if '\n' !in line {
      StripChars(line[..i], '\n');
      StripChars(line[i + 1..], '\n');
    }
  }

  /** Both ends of a parsed edge are stripped. */
  lemma EdgeOfTrimmed(line: string)
    requires EdgeOf(line).Some?
    ensures Trimmed(EdgeOf(line).value.0) && Trimmed(EdgeOf(line).value.1)
  {
  }

  /** A clean `src>dst` line gives back its two ends. */
  lemma EdgeOfRoundTrip(src: string, dst: string)
    requires '>' !in src && Trimmed(src) && Trimmed(dst)
    ensures EdgeOf(src + ">" + dst) == Some((src, dst))
  {
    var line := src + ">" + dst;
    assert line[|src|] == '>';
    assert line[..|src|] == src;
    assert line[|src| + 1..] == dst;
    CharIndexFirst(line, '>', |src|);
    EdgeOfAt(line, |src|);
    StripKeeps(src);
    StripKeeps(dst);
  }

  /** The first occurrence is the one `CharIndex` finds. */
  lemma CharIndexFirst(s: string, c: char, i: nat)
    requires i < |s| && s[i] == c && c !in s[..i]
    ensures CharIndex(s, c) == Some(i)
  {
  }

  /** Where the first `>` sits decides the two ends. */
  lemma EdgeOfAt(line: string, i: nat)
    requires CharIndex(line, '>') == Some(i)
    ensures EdgeOf(line) == Some((Strip(line[..i]), Strip(line[i + 1..])))
  {
  }

  function NodeDecl(name: string): string
  {
    "  \"" + name + "\";"
  }

  function EdgeDecl(src: string, dst: string): string
  {
    "  \"" + src + "\" -> \"" + dst + "\";"
  }

  function NodeDecls(names: seq<string>): (r: seq<string>)
    ensures |r| == |names|
    ensures forall i :: 0 <= i < |names| ==> r[i] == NodeDecl(names[i])
    ensures (forall i :: 0 <= i < |names| ==> '\n' !in names[i]) ==> forall i :: 0 <= i < |r| ==> '\n' !in r[i]
  {
    if |names| == 0 then [] else [NodeDecl(names[0])] + NodeDecls(names[1..])
  }

  /** How many lines contain `'>'`. */
  function ArrowLines(lines: seq<string>): (n: nat)
    ensures n == |Filter(lines, HasArrow)|
  {
    if |lines| == 0 then 0
    else
      assert Filter(lines, HasArrow) == if '>' in lines[0] then [lines[0]] + Filter(lines[1..], HasArrow) else Filter(lines[1..], HasArrow);
      (if '>' in lines[0] then 1 else 0) + ArrowLines(lines[1..])
  }

  /** One declaration per line that contains `'>'`, in order; other lines are skipped. */
  function EdgeDecls(lines: seq<string>): (r: seq<string>)
    ensures |r| == ArrowLines(lines)
  {
    if |lines| == 0 then []
    else
      var e := EdgeOf(lines[0]);
      var rest := EdgeDecls(lines[1..]);
      if e.None? then rest else [EdgeDecl(e.value.0, e.value.1)] + rest
  }

  /** Edge lines without line breaks give declarations without line breaks. */
  lemma {:induction false} EdgeDeclsOneLine(lines: seq<string>)
    requires forall i :: 0 <= i < |lines| ==> '\n' !in lines[i]
    ensures forall i :: 0 <= i < |EdgeDecls(lines)| ==> '\n' !in EdgeDecls(lines)[i]
    decreases |lines|
  {
    if |lines| > 0 {
      EdgeDeclsOneLine(lines[1..]);
      var e := EdgeOf(lines[0]);
      var rest := EdgeDecls(lines[1..]);
      if e.Some? {
        EdgeDeclOneLine(e.value.0, e.value.1);
        assert EdgeDecls(lines) == [EdgeDecl(e.value.0, e.value.1)] + rest;
      }
    }
  }

  /** Whether a sketch line describes an edge. */
  predicate HasArrow(line: string)
  {
    '>' in line
  }

  /** The declaration an edge line produces. */
  function LineEdgeDecl(line: string): string
    requires '>' in line
  {
    var e := EdgeOf(line).value;
    EdgeDecl(e.0, e.1)
  }

  /** `decl` is the declaration that edge line `line` produces. */
  predicate DeclaresEdge(line: string, decl: string)
  {
    '>' in line && decl == LineEdgeDecl(line)
  }

  /** The k-th declaration comes from the k-th line that contains `'>'`. */
  lemma {:induction false} EdgeDeclsInOrder(lines: seq<string>)
    ensures var arrows := Filter(lines, HasArrow);
      && |EdgeDecls(lines)| == |arrows|
      && forall k :: 0 <= k < |arrows| ==> DeclaresEdge(arrows[k], EdgeDecls(lines)[k])
    decreases |lines|
  {
    if |lines| > 0 {
      EdgeDeclsInOrder(lines[1..]);
      var rest := Filter(lines[1..], HasArrow);
      var decls := EdgeDecls(lines[1..]);
      if '>' in lines[0] {
        assert Filter(lines, HasArrow) == [lines[0]] + rest;
        assert EdgeDecls(lines) == [LineEdgeDecl(lines[0])] + decls;
        PairedCons(lines[0], rest, LineEdgeDecl(lines[0]), decls, DeclaresEdge);
      } else {
        assert Filter(lines, HasArrow) == rest;
        assert EdgeDecls(lines) == decls;
      }
    }
  }

  /** The sketch pad's DOT lines. */
  function SketchLines(nodesText: string, edgesText: string): (r: seq<string>)
    ensures |r| == 2 + |SketchNodes(nodesText)| + ArrowLines(SplitLines(edgesText))
    ensures r[0] == Header && r[|r| - 1] == "}"
    ensures forall i :: 0 <= i < |SketchNodes(nodesText)| ==> r[1 + i] == NodeDecl(SketchNodes(nodesText)[i])
    ensures r[1 + |SketchNodes(nodesText)|..|r| - 1] == EdgeDecls(SplitLines(edgesText))
  {
    Frame(Header, NodeDecls(SketchNodes(nodesText)), EdgeDecls(SplitLines(edgesText)), "}")
  }

  /**
    Between the node declarations and the closing brace come the edge
    declarations, the k-th from the k-th line that contains `'>'`.
   */
  lemma SketchEdgesInOrder(nodesText: string, edgesText: string)
    ensures var r := SketchLines(nodesText, edgesText);
      var edges := r[1 + |SketchNodes(nodesText)|..|r| - 1];
      var arrows := Filter(SplitLines(edgesText), HasArrow);
      && |edges| == |arrows|
      && forall k :: 0 <= k < |arrows| ==> DeclaresEdge(arrows[k], edges[k])
  {
    EdgeDeclsInOrder(SplitLines(edgesText));
  }

  function SketchDot(nodesText: string, edgesText: string): (r: string)
    ensures Header <= r && |r| > 0 && r[|r| - 1] == '}'
  {
    var lines := SketchLines(nodesText, edgesText);
    JoinFramed(lines, "\n", Header, '}');
    Join(lines, "\n")
  }

  /** An edge declaration between names without line breaks has none either. */
  lemma EdgeDeclOneLine(src: string, dst: string)
    ensures '\n' !in src && '\n' !in dst ==> '\n' !in EdgeDecl(src, dst)
  {
  }

  /**
    When the node text holds no newline, the sketch's DOT text splits back
    into its lines: 2 + (#nodes) + (#edge lines containing `'>'`) of them.
   */
  lemma SketchDotLines(nodesText: string, edgesText: string)
    requires '\n' !in nodesText
    ensures Split(SketchDot(nodesText, edgesText), '\n') == SketchLines(nodesText, edgesText)
    ensures |Split(SketchDot(nodesText, edgesText), '\n')|
      == 2 + |SketchNodes(nodesText)| + ArrowLines(SplitLines(edgesText))
  {
    SketchLinesOneLine(nodesText, edgesText);
    assert "\n" == ['\n'];
    SplitJoin(SketchLines(nodesText, edgesText), '\n');
  }

  /** No sketch line holds a newline when the node text holds none. */
  lemma SketchLinesOneLine(nodesText: string, edgesText: string)
    requires '\n' !in nodesText
    ensures forall i :: 0 <= i < |SketchLines(nodesText, edgesText)| ==> '\n' !in SketchLines(nodesText, edgesText)[i]
  {
    var pieces := Split(nodesText, ',');
    SplitPiecesLack(nodesText, ',', '\n');
    StrippedPiecesHaveNo(pieces, '\n');
    var nodeDecls := NodeDecls(SketchNodes(nodesText));
    var lines := SplitLines(edgesText);
    NoNewlineInLines(lines);
    EdgeDeclsOneLine(lines);
    var edgeDecls := EdgeDecls(lines);
    var all := SketchLines(nodesText, edgesText);
    forall i | 0 <= i < |all|
      ensures '\n' !in all[i]
    {
      if i == 0 || i == |all| - 1 {
        FixedLinesOneLine();
      } else if i < 1 + |nodeDecls| {
        assert all[i] == nodeDecls[i - 1];
      } else {
        assert all[i] == all[1 + |nodeDecls|..|all| - 1][i - 1 - |nodeDecls|];
      }
    }
  }

  lemma NoNewlineInLines(lines: seq<string>)
    requires forall i :: 0 <= i < |lines| ==> OneLine(lines[i])
    ensures forall i :: 0 <= i < |lines| ==> '\n' !in lines[i]
  {
    forall i | 0 <= i < |lines|
      ensures '\n' !in lines[i]
    {
      assert IsLineBreak('\n');
    }
  }

  /** A character absent from the input is absent from every piece `Split` returns. */
  lemma SplitPiecesLack(s: string, c: char, d: char)
    requires d !in s
    ensures forall i :: 0 <= i < |Split(s, c)| ==> d !in Split(s, c)[i]
  {
    var parts := Split(s, c);
    forall i | 0 <= i < |parts|
      ensures d !in parts[i]
    {
      JoinLacks(parts, [c], i, d);
    }
  }

  /** A character absent from a join is absent from each of its parts. */
  lemma {:induction false} JoinLacks(parts: seq<string>, sep: string, i: nat, d: char)
    requires i < |parts| && d !in Join(parts, sep)
    ensures d !in parts[i]
    decreases |parts|
  {
    if |parts| > 1 && i > 0 {
      JoinLacks(parts[1..], sep, i - 1, d);
    }
  }
}
