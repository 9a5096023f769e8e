/**
  The navigation sidebar of `app.py`: per-page badges, the labels built
  from them, recovering the page name from a label, and the validation
  summary with its ten-item cap.
 */
module Sidebar {
  import opened Base
  import opened Strings
  import opened Seqs
  import opened Entities

  /** The pages in navigation order. */
  const PageKeys: seq<string> := ["Crews", "Tools", "Agents", "Tasks", "Knowledge", "Kickoff!", "Results", "Import/export"]

  const Warning := " \U{26A0}\U{FE0F}"
  const Rocket := "\U{1F680}"

  /** The elements that fail `ok`, in list order. */
  function Failing<T>(xs: seq<T>, ok: T -> bool): seq<T>
  {
    if |xs| == 0 then []
    else (if ok(xs[0]) then [] else [xs[0]]) + Failing(xs[1..], ok)
  }

  /** `Failing` is filtering by the negation of `ok`: the failures in order, each as often as in `xs`. */
  lemma {:induction false} FailingFilters<T(!new)>(xs: seq<T>, ok: T -> bool)
    ensures Failing(xs, ok) == Filter(xs, (x: T) => !ok(x))
    decreases |xs|
  {
    if |xs| > 0 {
      FailingFilters(xs[1..], ok);
    }
  }

  /** How many elements fail `ok`. */
  function CountInvalid<T>(xs: seq<T>, ok: T -> bool): (n: nat)
    ensures n == |Failing(xs, ok)|
    ensures n <= |xs|
    ensures n == 0 <==> forall i :: 0 <= i < |xs| ==> ok(xs[i])
  {
    if |xs| == 0 then 0
    else
      var rest := CountInvalid(xs[1..], ok);
      assert forall i :: 1 <= i < |xs| ==> xs[i] == xs[1..][i - 1];
      (if ok(xs[0]) then 0 else 1) + rest
  }

  /** The count in parentheses, followed by the warning sign when some element is invalid. */
  function CountBadge(count: nat, invalid: nat): (b: string)
    ensures StartsWith(b, "(" + NatToString(count) + ")")
    ensures b == "(" + NatToString(count) + ")" + Warning <==> invalid > 0
    ensures invalid == 0 ==> b == "(" + NatToString(count) + ")"
  {
    var plain := "(" + NatToString(count) + ")";
    assert StartsWith(plain + Warning, plain) by { assert (plain + Warning)[..|plain|] == plain; }
    if invalid > 0 then plain + Warning else plain
  }

  /** Everything the badges depend on; crew validity comes from the crew class, outside this model. */
  datatype SidebarState = SidebarState(store: Store, crewValid: Crew -> bool, resultsCount: nat, running: bool)

  /** Task validity against the rest of the store, as a test on one task. */
  function ValidIn(s: Store): Task -> bool
  {
    (t: Task) => TaskValid(s, t)
  }

  /** The badge shown after a page's name in the sidebar (empty for pages without one). */
  function PageBadge(ss: SidebarState, page: string): (b: string)
    ensures page == "Crews" ==> b == CountBadge(|ss.store.crews|, CountInvalid(ss.store.crews, ss.crewValid))
    ensures page == "Tools" ==> b == CountBadge(|ss.store.tools|, CountInvalid(ss.store.tools, ToolValid))
    ensures page == "Agents" ==> b == CountBadge(|ss.store.agents|, CountInvalid(ss.store.agents, AgentValid))
    ensures page == "Tasks" ==> b == CountBadge(|ss.store.tasks|, CountInvalid(ss.store.tasks, ValidIn(ss.store)))
    ensures page == "Knowledge" ==> b == "(" + NatToString(|ss.store.knowledgeSources|) + ")"
    ensures page == "Results" ==> b == "(" + NatToString(ss.resultsCount) + ")"
    ensures page == "Kickoff!" ==> (b == Rocket <==> ss.running) && (b == "" <==> !ss.running)
    ensures page !in PageKeys || page == "Import/export" ==> b == ""
  {
    var s := ss.store;
    if page == "Crews" then CountBadge(|s.crews|, CountInvalid(s.crews, ss.crewValid))
    else if page == "Tools" then CountBadge(|s.tools|, CountInvalid(s.tools, ToolValid))
    else if page == "Agents" then CountBadge(|s.agents|, CountInvalid(s.agents, AgentValid))
    else if page == "Tasks" then CountBadge(|s.tasks|, CountInvalid(s.tasks, ValidIn(s)))
    else if page == "Knowledge" then "(" + NatToString(|s.knowledgeSources|) + ")"
    else if page == "Results" then "(" + NatToString(ss.resultsCount) + ")"
    else if page == "Kickoff!" then (if ss.running then Rocket else "")
    else ""
  }

  /** The agents badge warns exactly when some agent has an invalid tool. */
  lemma AgentsBadgeWarns(ss: SidebarState)
    ensures PageBadge(ss, "Agents") == "(" + NatToString(|ss.store.agents|) + ")" + Warning <==>
      exists i :: 0 <= i < |ss.store.agents| && !AgentValid(ss.store.agents[i])
  {
  }

  /** Each page name, a space and its badge (empty when it has none), in navigation order. */
  function PageLabels(ss: SidebarState): (labels: seq<string>)
    ensures |labels| == |PageKeys|
    ensures forall i :: 0 <= i < |PageKeys| ==> labels[i] == PageKeys[i] + " " + PageBadge(ss, PageKeys[i])
  {
    seq(|PageKeys|, i requires 0 <= i < |PageKeys| => PageKeys[i] + " " + PageBadge(ss, PageKeys[i]))
  }

  /** The page name of a label: cut at the first count, then warning, then rocket separator, and strip. */
  function ExtractPageName(text: string): (r: string)
    ensures Trimmed(r)
    ensures |r| <= |text|
  {
    Strip(Before(Before(Before(text, " ("), Warning), " " + Rocket))
  }

  /** A page name with no whitespace in it, as every page key is. */
  predicate Unspaced(p: string)
  {
    |p| > 0 && forall i :: 0 <= i < |p| ==> !IsSpace(p[i])
  }

  lemma PageKeysUnspaced()
    ensures forall i :: 0 <= i < |PageKeys| ==> Unspaced(PageKeys[i])
  {
  }

  /** A separator that starts with a space can only occur where the text has a space. */
  lemma OccursAtSpace(s: string, t: string, k: nat)
    requires |t| > 0 && t[0] == ' ' && OccursAt(s, t, k)
    ensures s[k] == ' '
  {
    assert s[k] == s[k..k + |t|][0];
  }

  /** Unspaced text holds no separator that starts with a space. */
  lemma UnspacedHasNoSeparator(p: string, t: string)
    requires Unspaced(p) && |t| > 0 && t[0] == ' '
    ensures !Contains(p, t)
  {
    forall k: nat | k <= |p| && OccursAt(p, t, k)
      ensures false
    {
      OccursAtSpace(p, t, k);
    }
  }

  /** In `p + t + rest` the first `t` (starting with a space) follows `p`. */
  lemma BeforeSeparator(p: string, t: string, rest: string)
    requires Unspaced(p) && |t| > 0 && t[0] == ' '
    ensures Before(p + t + rest, t) == p
  {
    var s := p + t + rest;
    UnspacedHasNoSeparator(p, t);
    forall k: nat | k < |p|
      ensures !OccursAt(s, t, k)
    {
      if OccursAt(s, t, k) {
        OccursAtSpace(s, t, k);
      }
    }
    BeforeStops(p, t, rest);
  }

  /** `p + " " + tail` has no `t` when the tail does not start `t`'s remainder and has no space. */
  lemma NoSeparatorAfter(p: string, tail: string, t: string)
    requires Unspaced(p) && |t| >= 2 && t[0] == ' '
    requires forall i :: 0 <= i < |tail| ==> tail[i] != ' '
    requires |tail| > 0 ==> tail[0] != t[1]
    ensures !Contains(p + " " + tail, t)
  {
    var s := p + " " + tail;
    forall k: nat | k <= |s| && OccursAt(s, t, k)
      ensures false
    {
      OccursAtSpace(s, t, k);
    }
  }

  lemma StripUnspaced(p: string)
    requires Unspaced(p)
    ensures Strip(p) == p
  {
    StripKeeps(p);
  }

  /** Stripping the one trailing space of an unspaced name gives the name back. */
  lemma StripTrailingSpace(p: string)
    requires Unspaced(p)
    ensures Strip(p + " ") == p
  {
    var s := p + " ";
    assert s[..|s| - 1] == p;
    assert TrimRight(s, IsSpace) == TrimRight(p, IsSpace);
    StripUnspaced(p);
  }

  /** A label whose badge is a count: the text before `" ("` is the page. */
  lemma ExtractCounted(p: string, rest: string)
    requires Unspaced(p)
    ensures ExtractPageName(p + " (" + rest) == p
  {
    BeforeSeparator(p, " (", rest);
    UnspacedHasNoSeparator(p, Warning);
    UnspacedHasNoSeparator(p, " " + Rocket);
    StripUnspaced(p);
  }

  /** A label whose badge is the rocket: only the last split cuts. */
  lemma ExtractRocket(p: string)
    requires Unspaced(p)
    ensures ExtractPageName(p + " " + Rocket) == p
  {
    var s := p + " " + Rocket;
    NoSeparatorAfter(p, Rocket, " (");
    assert Before(s, " (") == s;
    NoSeparatorAfter(p, Rocket, Warning);
    assert Before(s, Warning) == s;
    BeforeSeparator(p, " " + Rocket, "");
    assert p + (" " + Rocket) + "" == s;
    assert Before(s, " " + Rocket) == p;
    StripUnspaced(p);
  }

  /** A label with an empty badge: no split cuts and `strip` drops the trailing space. */
  lemma ExtractEmpty(p: string)
    requires Unspaced(p)
    ensures ExtractPageName(p + " ") == p
  {
    assert p + " " == p + " " + "";
    NoSeparatorAfter(p, "", " (");
    NoSeparatorAfter(p, "", Warning);
    NoSeparatorAfter(p, "", " " + Rocket);
    StripTrailingSpace(p);
  }

  /**
    Recovering the page from its label works for every page key and every
    badge `get_page_badges` can produce.
   */
  lemma ExtractPageNameOfLabel(ss: SidebarState, i: nat)
    requires i < |PageKeys|
    ensures ExtractPageName(PageLabels(ss)[i]) == PageKeys[i]
  {
    PageKeysUnspaced();
    ExtractPageNameOfKey(ss, PageKeys[i]);
  }

  lemma ExtractPageNameOfKey(ss: SidebarState, p: string)
    requires p in PageKeys && Unspaced(p)
    ensures ExtractPageName(p + " " + PageBadge(ss, p)) == p
  {
    BadgeShape(ss, p);
    ExtractWithBadge(p, PageBadge(ss, p));
  }

  /** Every badge is empty, the rocket, or starts with an opening parenthesis. */
  lemma BadgeShape(ss: SidebarState, p: string)
    requires p in PageKeys
    ensures var b := PageBadge(ss, p); b == "" || b == Rocket || (|b| > 0 && b[0] == '(')
  {
    if p != "Kickoff!" && p != "Import/export" {
      BadgeStartsParen(ss, p);
    }
  }

  /** The page comes back from a label whatever shape of badge follows it. */
  lemma ExtractWithBadge(p: string, b: string)
    requires Unspaced(p)
    requires b == "" || b == Rocket || (|b| > 0 && b[0] == '(')
    ensures ExtractPageName(p + " " + b) == p
  {
    if b == Rocket {
      ExtractRocket(p);
    } else if b == "" {
      assert p + " " + b == p + " ";
      ExtractEmpty(p);
    } else {
      assert p + " " + b == p + " (" + b[1..];
      ExtractCounted(p, b[1..]);
    }
  }

  /** The counting badges begin with an opening parenthesis. */
  lemma BadgeStartsParen(ss: SidebarState, p: string)
    requires p in PageKeys && p != "Kickoff!" && p != "Import/export"
    ensures |PageBadge(ss, p)| > 0 && PageBadge(ss, p)[0] == '('
  {
  }

  const CrossMark := "\U{274C} "

  /** A crew in an error line: its name. */
  function CrewLabel(c: Crew): string
  {
    c.name
  }

  /** An agent in an error line: the first 30 characters of its role. */
  function AgentLabel(a: Agent): string
  {
    Take(a.role, 30)
  }

  /** A task in an error line: the first 30 characters of its description. */
  function TaskLabel(t: Task): string
  {
    Take(t.description, 30)
  }

  /** A tool in an error line: its name. */
  function ToolLabel(t: Tool): string
  {
    t.name
  }

  /** One line per element of `xs`, in order: the prefix, then the element's name. */
  function Named<T>(xs: seq<T>, prefix: string, name: T -> string): (r: seq<string>)
    ensures |r| == |xs| && forall k :: 0 <= k < |xs| ==> r[k] == prefix + name(xs[k])
  {
    seq(|xs|, k requires 0 <= k < |xs| => prefix + name(xs[k]))
  }

  lemma NamedCons<T>(x: T, xs: seq<T>, prefix: string, name: T -> string)
    ensures Named([x] + xs, prefix, name) == [prefix + name(x)] + Named(xs, prefix, name)
  {
    var a, b := Named([x] + xs, prefix, name), [prefix + name(x)] + Named(xs, prefix, name);
    assert forall k :: 1 <= k < |a| ==> a[k] == b[k] && ([x] + xs)[k] == xs[k - 1];
  }

  /** `lines` holds one line per element of `xs` failing `ok`, in order: the prefix, then the element's name. */
  predicate NamesFailures<T>(lines: seq<string>, xs: seq<T>, ok: T -> bool, prefix: string, name: T -> string)
  {
    lines == Named(Failing(xs, ok), prefix, name)
  }

  /** One error per failing element of one kind, in list order. */
  function KindErrors<T>(xs: seq<T>, ok: T -> bool, prefix: string, name: T -> string): (r: seq<string>)
    ensures |r| == CountInvalid(xs, ok)
    ensures NamesFailures(r, xs, ok, prefix, name)
  {
    if |xs| == 0 then []
    else
      var rest := KindErrors(xs[1..], ok, prefix, name);
      if ok(xs[0]) then rest
      else
        NamedCons(xs[0], Failing(xs[1..], ok), prefix, name);
        [prefix + name(xs[0])] + rest
  }

  /** Every error of one kind starts with that kind's prefix. */
  lemma KindErrorsPrefixed<T>(xs: seq<T>, ok: T -> bool, prefix: string, name: T -> string)
    ensures var r := KindErrors(xs, ok, prefix, name);
      forall i :: 0 <= i < |r| ==> StartsWith(r[i], prefix)
  {
    var r := KindErrors(xs, ok, prefix, name);
    forall i | 0 <= i < |r|
      ensures StartsWith(r[i], prefix)
    {
      assert (prefix + name(Failing(xs, ok)[i]))[..|prefix|] == prefix;
    }
  }

  lemma ConcatKeepsPrefixes(a: seq<string>, b: seq<string>, c: seq<string>, d: seq<string>,
                            pa: string, pb: string, pc: string, pd: string)
    requires forall i :: 0 <= i < |a| ==> StartsWith(a[i], pa)
    requires forall i :: 0 <= i < |b| ==> StartsWith(b[i], pb)
    requires forall i :: 0 <= i < |c| ==> StartsWith(c[i], pc)
    requires forall i :: 0 <= i < |d| ==> StartsWith(d[i], pd)
    ensures var r := a + b + c + d;
      && (forall i :: 0 <= i < |a| ==> StartsWith(r[i], pa))
      && (forall i :: |a| <= i < |a| + |b| ==> StartsWith(r[i], pb))
      && (forall i :: |a| + |b| <= i < |a| + |b| + |c| ==> StartsWith(r[i], pc))
      && (forall i :: |a| + |b| + |c| <= i < |r| ==> StartsWith(r[i], pd))
  {
    var r := a + b + c + d;
    assert forall i :: 0 <= i < |a| ==> r[i] == a[i];
    assert forall i :: |a| <= i < |a| + |b| ==> r[i] == b[i - |a|];
    assert forall i :: |a| + |b| <= i < |a| + |b| + |c| ==> r[i] == c[i - |a| - |b|];
    assert forall i :: |a| + |b| + |c| <= i < |r| ==> r[i] == d[i - |a| - |b| - |c|];
  }

  /** The validation list of `draw_sidebar`: crews, then agents, then tasks, then tools. */
  function ValidationErrors(ss: SidebarState): (r: seq<string>)
    ensures var s := ss.store;
      var nc := |Failing(s.crews, ss.crewValid)|;
      var na := |Failing(s.agents, AgentValid)|;
      var nt := |Failing(s.tasks, ValidIn(s))|;
      var nl := |Failing(s.tools, ToolValid)|;
      && |r| == nc + na + nt + nl
      && NamesFailures(r[..nc], s.crews, ss.crewValid, CrossMark + "Crew: ", CrewLabel)
      && NamesFailures(r[nc..nc + na], s.agents, AgentValid, CrossMark + "Agent: ", AgentLabel)
      && NamesFailures(r[nc + na..nc + na + nt], s.tasks, ValidIn(s), CrossMark + "Task: ", TaskLabel)
      && NamesFailures(r[nc + na + nt..], s.tools, ToolValid, CrossMark + "Tool: ", ToolLabel)
  {
    var s := ss.store;
    var crews := KindErrors(s.crews, ss.crewValid, CrossMark + "Crew: ", CrewLabel);
    var agents := KindErrors(s.agents, AgentValid, CrossMark + "Agent: ", AgentLabel);
    var tasks := KindErrors(s.tasks, ValidIn(s), CrossMark + "Task: ", TaskLabel);
    var tools := KindErrors(s.tools, ToolValid, CrossMark + "Tool: ", ToolLabel);
    assert |crews| == |Failing(s.crews, ss.crewValid)| && |agents| == |Failing(s.agents, AgentValid)|;
    assert |tasks| == |Failing(s.tasks, ValidIn(s))| && |tools| == |Failing(s.tools, ToolValid)|;
    ConcatSlices(crews, agents, tasks, tools);
    crews + agents + tasks + tools
  }

  /** The list is grouped by kind: crew errors first, then agent, task and tool errors. */
  lemma ValidationErrorsGrouped(ss: SidebarState)
    ensures var s := ss.store;
      var r := ValidationErrors(ss);
      var nc := CountInvalid(s.crews, ss.crewValid);
      var na := CountInvalid(s.agents, AgentValid);
      var nt := CountInvalid(s.tasks, ValidIn(s));
      var nl := CountInvalid(s.tools, ToolValid);
      && |r| == nc + na + nt + nl
      && (forall i :: 0 <= i < nc ==> StartsWith(r[i], CrossMark + "Crew: "))
      && (forall i :: nc <= i < nc + na ==> StartsWith(r[i], CrossMark + "Agent: "))
      && (forall i :: nc + na <= i < nc + na + nt ==> StartsWith(r[i], CrossMark + "Task: "))
      && (forall i :: nc + na + nt <= i < |r| ==> StartsWith(r[i], CrossMark + "Tool: "))
  {
    var s := ss.store;
    KindErrorsPrefixed(s.crews, ss.crewValid, CrossMark + "Crew: ", CrewLabel);
    KindErrorsPrefixed(s.agents, AgentValid, CrossMark + "Agent: ", AgentLabel);
    KindErrorsPrefixed(s.tasks, ValidIn(s), CrossMark + "Task: ", TaskLabel);
    KindErrorsPrefixed(s.tools, ToolValid, CrossMark + "Tool: ", ToolLabel);
    ConcatKeepsPrefixes(
      KindErrors(s.crews, ss.crewValid, CrossMark + "Crew: ", CrewLabel),
      KindErrors(s.agents, AgentValid, CrossMark + "Agent: ", AgentLabel),
      KindErrors(s.tasks, ValidIn(s), CrossMark + "Task: ", TaskLabel),
      KindErrors(s.tools, ToolValid, CrossMark + "Tool: ", ToolLabel),
      CrossMark + "Crew: ", CrossMark + "Agent: ", CrossMark + "Task: ", CrossMark + "Tool: ");
  }

  /** The badges and the error list agree: some badge warns exactly when the list is non-empty. */
  lemma BadgesAgreeWithErrors(ss: SidebarState)
    ensures |ValidationErrors(ss)| > 0 <==>
      || PageBadge(ss, "Crews") == "(" + NatToString(|ss.store.crews|) + ")" + Warning
      || PageBadge(ss, "Tools") == "(" + NatToString(|ss.store.tools|) + ")" + Warning
      || PageBadge(ss, "Agents") == "(" + NatToString(|ss.store.agents|) + ")" + Warning
      || PageBadge(ss, "Tasks") == "(" + NatToString(|ss.store.tasks|) + ")" + Warning
  {
  }

  const MaxShown := 10

  /** What the sidebar shows under the validation divider. */
  datatype Summary =
    | AllValid(message: string)
    | Issues(header: string, shown: seq<string>, overflow: Option<string>)

  /** The overflow caption: an ellipsis, "and", the number of hidden errors and "more". */
  function MoreCaption(n: nat): (c: string)
    ensures |c| > 13 && c[..8] == "... and " && c[|c| - 5..] == " more"
    ensures c[8..|c| - 5] == NatToString(n)
  {
    var c := "... and " + NatToString(n) + " more";
    assert c[8..|c| - 5] == NatToString(n);
    c
  }

  /** The validation block: all valid, or a header, the first ten errors and an overflow caption. */
  function ValidationSummary(errors: seq<string>): (r: Summary)
    ensures r.AllValid? <==> |errors| == 0
    ensures r.AllValid? ==> r.message == "\U{2705} All items valid"
    ensures r.Issues? ==> r.header == "\U{26A0}\U{FE0F} Validation Issues (" + NatToString(|errors|) + ")"
    ensures r.Issues? ==> |r.shown| <= MaxShown && |r.shown| <= |errors| && r.shown == errors[..|r.shown|]
    ensures r.Issues? ==> |r.shown| == if |errors| < MaxShown then |errors| else MaxShown
    ensures r.Issues? ==> (r.overflow.Some? <==> |errors| > MaxShown)
  {
    if |errors| == 0 then AllValid("\U{2705} All items valid")
    else
      var shown := if |errors| <= MaxShown then errors else errors[..MaxShown];
      var overflow := if |errors| > MaxShown then Some(MoreCaption(|errors| - MaxShown)) else None;
      Issues("\U{26A0}\U{FE0F} Validation Issues (" + NatToString(|errors|) + ")", shown, overflow)
  }

  /** The shown errors plus the number the overflow caption reports give the whole list. */
  lemma SummaryAccountsForAll(errors: seq<string>)
    requires |errors| > 0
    ensures var r := ValidationSummary(errors);
      var c := r.overflow.GetOr("... and 0 more");
      && |c| > 13
      && (forall i :: 8 <= i < |c| - 5 ==> IsDigit(c[i]))
      && |r.shown| + DigitsValue(c[8..|c| - 5]) == |errors|
  {
    var r := ValidationSummary(errors);
    if |errors| > MaxShown {
      NatToStringValue(|errors| - MaxShown);
    } else {
      var c := "... and 0 more";
      assert c[8..|c| - 5] == "0";
    }
  }
}
