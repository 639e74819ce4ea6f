/**
 * The Jenkins failure analyzer: classify the console log of each failed build
 * among the ten most recent into one of five categories, tally the categories
 * in a dictionary that keeps insertion order, and report one line per category.
 *
 * The Jenkins HTTP API is not modelled: the build list is an input sequence and
 * fetching a console log is the function `consoleText` from a log URL to its
 * text. The URLs requested are returned so that what is fetched can be stated.
 */
module LogAnalyzer {
  import opened Optional
  import opened Text

  // ---------------------------------------------------------------------------
  // Classification (analyze_log)
  // ---------------------------------------------------------------------------

  datatype Category = Timeout | Network | Dependency | DockerBuild | Other

  /** The string `analyze_log` returns for each category. */
  function Label(c: Category): string {
    match c
    case Timeout => "Timeout Issue"
    case Network => "Network Issue"
    case Dependency => "Dependency Issue"
    case DockerBuild => "Docker Build Error"
    case Other => "Other Failure"
  }

  const Labels: set<string> :=
    {"Timeout Issue", "Network Issue", "Dependency Issue", "Docker Build Error", "Other Failure"}

  /** The rule table: the lower-case trigger substrings of each category. */
  function Keywords(c: Category): seq<string> {
    match c
    case Timeout => ["timeout"]
    case Network => ["connection refused"]
    case Dependency => ["failed to download", "dependency"]
    case DockerBuild => ["docker build"]
    case Other => []
  }

  /** Position of each rule in the priority order; the fallback comes last. */
  function Rank(c: Category): nat {
    match c
    case Timeout => 0
    case Network => 1
    case Dependency => 2
    case DockerBuild => 3
    case Other => 4
  }

  /** Rule `c` applies to `log`: one of its keywords occurs in any letter case, or `c` is the fallback. */
  predicate Applies(c: Category, log: string) {
    c == Other || exists k :: k in Keywords(c) && ContainsIgnoreCase(log, k)
  }

  /** `c` is the first rule in priority order that applies to `log`. */
  ghost predicate FirstApplicable(c: Category, log: string) {
    Applies(c, log) && forall d :: Rank(d) < Rank(c) ==> !Applies(d, log)
  }

  /**
   * analyze_log as a category: tests for "timeout", "connection refused",
   * "failed to download" or "dependency", and "docker build", in that order,
   * ignoring case; the first test that succeeds decides.
   */
  function Classify(logText: string): (c: Category)
    ensures Applies(c, logText)
  {
    if ContainsIgnoreCase(logText, "timeout") then Timeout
    else if ContainsIgnoreCase(logText, "connection refused") then Network
    else if ContainsIgnoreCase(logText, "failed to download") || ContainsIgnoreCase(logText, "dependency") then Dependency
    else if ContainsIgnoreCase(logText, "docker build") then DockerBuild
    else Other
  }

  /** The if/elif chain implements the rule table: its answer is the first rule that applies. */
  lemma ClassifyIsFirstApplicable(logText: string)
    ensures FirstApplicable(Classify(logText), logText)
  {
  }

  /** analyze_log itself: always one of the five category strings. */
  function AnalyzeLog(logText: string): (r: string)
    ensures r in Labels
  {
    Label(Classify(logText))
  }

  /** The rule table determines the category: only one category is first applicable. */
  lemma FirstApplicableUnique(c: Category, log: string)
    requires FirstApplicable(c, log)
    ensures c == Classify(log)
  {
    ClassifyIsFirstApplicable(log);
  }

  /** Distinct categories are reported under distinct strings. */
  lemma LabelInjective(c: Category, d: Category)
    requires Label(c) == Label(d)
    ensures c == d
  {
  }

  /** "timeout" in any letter case wins, whatever other keywords the log contains. */
  lemma TimeoutInAnyCase(logText: string, i: int)
    requires 0 <= i <= |logText| - 7
    requires ToLower(logText[i..i + 7]) == "timeout"
    ensures Classify(logText) == Timeout
  {
    ContainsAnyCase(logText, "timeout", i);
  }

  /** A log with none of the five trigger substrings, in any case, is "Other Failure". */
  lemma NoKeywordIsOther(logText: string)
    requires !ContainsIgnoreCase(logText, "timeout")
    requires !ContainsIgnoreCase(logText, "connection refused")
    requires !ContainsIgnoreCase(logText, "failed to download")
    requires !ContainsIgnoreCase(logText, "dependency")
    requires !ContainsIgnoreCase(logText, "docker build")
    ensures AnalyzeLog(logText) == "Other Failure"
  {
  }

  // ---------------------------------------------------------------------------
  // Build records and the examined window (builds[:10])
  // ---------------------------------------------------------------------------

  /** A build record: `result` is None for a build still running (JSON null). */
  datatype Build = Build(number: int, result: Option<string>, url: string)

  /** Number of most recent builds examined. */
  const Window: nat := 10

  /** `build['result'] != "SUCCESS"`: a null or any other result counts as a failure. */
  predicate IsFailure(b: Build) {
    b.result != Some("SUCCESS")
  }

  /** `builds[:10]`. */
  function Examined(builds: seq<Build>): (r: seq<Build>)
    ensures |r| <= Window
    ensures r <= builds
    ensures |builds| <= Window ==> r == builds
    ensures |builds| > Window ==> r == builds[..Window]
  {
    if |builds| <= Window then builds else builds[..Window]
  }

  /** The console log URL of a build. */
  function LogUrl(b: Build): string {
    b.url + "consoleText"
  }

  /** The failed builds of `bs`, in order. */
  function Failures(bs: seq<Build>): (r: seq<Build>)
    ensures |r| <= |bs|
    ensures forall b :: b in r ==> IsFailure(b)
  {
    if bs == [] then []
    else Failures(bs[..|bs| - 1]) + (if IsFailure(bs[|bs| - 1]) then [bs[|bs| - 1]] else [])
  }

  /** The log URLs fetched for the failed builds, in order. */
  function LogUrls(failed: seq<Build>): seq<string> {
    if failed == [] then [] else LogUrls(failed[..|failed| - 1]) + [LogUrl(failed[|failed| - 1])]
  }

  /** The category of each failed build's console log, in order. */
  function Reasons(failed: seq<Build>, consoleText: string -> string): seq<Category> {
    if failed == [] then []
    else Reasons(failed[..|failed| - 1], consoleText) + [Classify(consoleText(LogUrl(failed[|failed| - 1])))]
  }

  lemma FailuresSnoc(bs: seq<Build>, b: Build)
    ensures Failures(bs + [b]) == Failures(bs) + (if IsFailure(b) then [b] else [])
  {
    assert (bs + [b])[..|bs|] == bs;
  }

  lemma ReasonsSnoc(failed: seq<Build>, b: Build, consoleText: string -> string)
    ensures LogUrls(failed + [b]) == LogUrls(failed) + [LogUrl(b)]
    ensures Reasons(failed + [b], consoleText) == Reasons(failed, consoleText) + [Classify(consoleText(LogUrl(b)))]
  {
    assert (failed + [b])[..|failed|] == failed;
  }

  /** One turn of the summarising loop: the effect of examining build `i`. */
  lemma SummarizeStep(examined: seq<Build>, i: nat, consoleText: string -> string)
    requires i < |examined|
    ensures !IsFailure(examined[i]) ==> Failures(examined[..i + 1]) == Failures(examined[..i])
    ensures IsFailure(examined[i]) ==>
              LogUrls(Failures(examined[..i + 1])) == LogUrls(Failures(examined[..i])) + [LogUrl(examined[i])]
    ensures IsFailure(examined[i]) ==>
              var s := Tally(Reasons(Failures(examined[..i]), consoleText));
              var r := Classify(consoleText(LogUrl(examined[i])));
              Tally(Reasons(Failures(examined[..i + 1]), consoleText)) == Put(s, r, Get(s, r) + 1)
  {
    var b := examined[i];
    assert examined[..i + 1] == examined[..i] + [b];
    FailuresSnoc(examined[..i], b);
    if IsFailure(b) {
      var failed := Failures(examined[..i]);
      ReasonsSnoc(failed, b, consoleText);
      TallySnoc(Reasons(failed, consoleText), Classify(consoleText(LogUrl(b))));
    }
  }

  /** A build is counted as often as it is listed if it failed, and never otherwise. */
  lemma {:induction false} FailuresCount(bs: seq<Build>, b: Build)
    ensures multiset(Failures(bs))[b] == if IsFailure(b) then multiset(bs)[b] else 0
  {
    if bs != [] {
      var init := bs[..|bs| - 1];
      FailuresCount(init, b);
      assert bs == init + [bs[|bs| - 1]];
    }
  }

  lemma {:induction false} ReasonsLength(failed: seq<Build>, consoleText: string -> string)
    ensures |Reasons(failed, consoleText)| == |failed|
    ensures |LogUrls(failed)| == |failed|
  {
    if failed != [] {
      ReasonsLength(failed[..|failed| - 1], consoleText);
    }
  }

  /** The k-th reason is the category of the k-th failed build's console log. */
  lemma {:induction false} ReasonsAt(failed: seq<Build>, consoleText: string -> string)
    ensures |Reasons(failed, consoleText)| == |failed|
    ensures forall k :: 0 <= k < |failed| ==>
              Reasons(failed, consoleText)[k] == Classify(consoleText(LogUrl(failed[k])))
  {
    if failed != [] {
      var init := failed[..|failed| - 1];
      ReasonsAt(init, consoleText);
      assert forall k :: 0 <= k < |init| ==> init[k] == failed[k];
    }
  }

  /** At most ten logs are fetched and classified. */
  lemma AtMostWindowFailures(builds: seq<Build>, consoleText: string -> string)
    ensures |LogUrls(Failures(Examined(builds)))| <= Window
    ensures |Reasons(Failures(Examined(builds)), consoleText)| <= Window
  {
    ReasonsLength(Failures(Examined(builds)), consoleText);
  }

  // ---------------------------------------------------------------------------
  // The failure_summary dictionary, kept in insertion order
  // ---------------------------------------------------------------------------

  datatype Entry = Entry(category: Category, count: nat)

  /** A Python dict from category to count; iteration follows insertion order. */
  type Summary = seq<Entry>

  /** The keys of the dict, in iteration order. */
  function Keys(s: Summary): seq<Category> {
    seq(|s|, i requires 0 <= i < |s| => s[i].category)
  }

  /** No category occurs twice in `ks`. */
  predicate Distinct(ks: seq<Category>) {
    forall i, j :: 0 <= i < j < |ks| ==> ks[i] != ks[j]
  }

  /** Every count stored is positive. */
  predicate Positive(s: Summary) {
    forall i :: 0 <= i < |s| ==> s[i].count > 0
  }

  /** `d.get(category, 0)`. */
  function Get(s: Summary, category: Category): nat {
    if s == [] then 0
    else if s[0].category == category then s[0].count
    else Get(s[1..], category)
  }

  /** `d[category] = count`: an existing key keeps its place, a new key goes last. */
  function Put(s: Summary, category: Category, count: nat): Summary {
    if s == [] then [Entry(category, count)]
    else if s[0].category == category then [Entry(category, count)] + s[1..]
    else [s[0]] + Put(s[1..], category, count)
  }

  /** Sum of all counts. */
  function Total(s: Summary): nat {
    if s == [] then 0 else s[0].count + Total(s[1..])
  }

  lemma KeysCons(e: Entry, s: Summary)
    ensures Keys([e] + s) == [e.category] + Keys(s)
  {
  }

  /** `d.get(k, 0)` of a key that is not in the dict is the default 0. */
  lemma {:induction false} GetAbsent(s: Summary, k: Category)
    requires k !in Keys(s)
    ensures Get(s, k) == 0
  {
    if s != [] {
      KeysCons(s[0], s[1..]);
      assert s == [s[0]] + s[1..];
      GetAbsent(s[1..], k);
    }
  }

  /** After `d[k] = v`, looking up `k` gives `v` and every other key is unaffected. */
  lemma {:induction false} PutGet(s: Summary, k: Category, v: nat, d: Category)
    ensures Get(Put(s, k, v), d) == if d == k then v else Get(s, d)
  {
    if s != [] && s[0].category != k {
      PutGet(s[1..], k, v, d);
    }
  }

  /** `d[k] = v` keeps the keys and their order, and appends `k` only when it is new. */
  lemma {:induction false} PutKeys(s: Summary, k: Category, v: nat)
    ensures Keys(Put(s, k, v)) == if k in Keys(s) then Keys(s) else Keys(s) + [k]
  {
    if s == [] {
    } else if s[0].category == k {
      KeysCons(Entry(k, v), s[1..]);
      KeysCons(s[0], s[1..]);
      assert s == [s[0]] + s[1..];
      assert Keys(s)[0] == k;
    } else {
      PutKeys(s[1..], k, v);
      KeysCons(s[0], Put(s[1..], k, v));
      KeysCons(s[0], s[1..]);
      assert s == [s[0]] + s[1..];
    }
  }

  /** Storing a positive count keeps every count positive. */
  lemma {:induction false} PutPositive(s: Summary, k: Category, v: nat)
    requires Positive(s) && v > 0
    ensures Positive(Put(s, k, v))
  {
    if s != [] && s[0].category != k {
      PutPositive(s[1..], k, v);
    }
  }

  /** `d[k] = v` changes the total by the new count minus the old one. */
  lemma {:induction false} PutTotal(s: Summary, k: Category, v: nat)
    ensures Total(Put(s, k, v)) == Total(s) - Get(s, k) + v
  {
    if s != [] && s[0].category != k {
      PutTotal(s[1..], k, v);
    }
  }

  /** In a dict with distinct keys, `Get` returns the count stored with that key. */
  lemma {:induction false} GetAt(s: Summary, i: int)
    requires Distinct(Keys(s)) && 0 <= i < |s|
    ensures Get(s, s[i].category) == s[i].count
  {
    if i > 0 {
      assert Keys(s)[0] != Keys(s)[i];
      assert Keys(s[1..]) == Keys(s)[1..];
      GetAt(s[1..], i - 1);
    }
  }

  /** The dict after counting `reasons` one by one: `d[r] = d.get(r, 0) + 1` for each. */
  function Tally(reasons: seq<Category>): Summary {
    if reasons == [] then []
    else
      var s := Tally(reasons[..|reasons| - 1]);
      var r := reasons[|reasons| - 1];
      Put(s, r, Get(s, r) + 1)
  }

  /** Counting one more reason is one `d[reason] = d.get(reason, 0) + 1` step. */
  lemma TallySnoc(reasons: seq<Category>, r: Category)
    ensures Tally(reasons + [r]) == Put(Tally(reasons), r, Get(Tally(reasons), r) + 1)
  {
    assert (reasons + [r])[..|reasons|] == reasons;
  }

  /** Each category's count is its number of occurrences (0 for one that never occurs). */
  lemma {:induction false} TallyGet(reasons: seq<Category>, c: Category)
    ensures Get(Tally(reasons), c) == multiset(reasons)[c]
  {
    if reasons != [] {
      var init := reasons[..|reasons| - 1];
      var r := reasons[|reasons| - 1];
      assert reasons == init + [r];
      TallyGet(init, c);
      TallyGet(init, r);
      PutGet(Tally(init), r, Get(Tally(init), r) + 1, c);
    }
  }

  /** The keys are exactly the categories that occur, each stored once, none with count 0. */
  lemma {:induction false} TallyKeys(reasons: seq<Category>)
    ensures Distinct(Keys(Tally(reasons)))
    ensures forall c :: c in Keys(Tally(reasons)) <==> c in reasons
    ensures Positive(Tally(reasons))
  {
    if reasons != [] {
      var init := reasons[..|reasons| - 1];
      var r := reasons[|reasons| - 1];
      assert reasons == init + [r];
      var s := Tally(init);
      TallyKeys(init);
      PutKeys(s, r, Get(s, r) + 1);
      PutPositive(s, r, Get(s, r) + 1);
    }
  }

  /** Each entry's count is the number of occurrences of its category. */
  lemma TallyEntry(reasons: seq<Category>, i: int)
    requires 0 <= i < |Tally(reasons)|
    ensures Tally(reasons)[i].count == multiset(reasons)[Tally(reasons)[i].category]
  {
    TallyKeys(reasons);
    GetAt(Tally(reasons), i);
    TallyGet(reasons, Tally(reasons)[i].category);
  }

  /** The counts add up to the number of classified failures. */
  lemma {:induction false} TallyTotal(reasons: seq<Category>)
    ensures Total(Tally(reasons)) == |reasons|
  {
    if reasons != [] {
      var init := reasons[..|reasons| - 1];
      var r := reasons[|reasons| - 1];
      TallyTotal(init);
      PutTotal(Tally(init), r, Get(Tally(init), r) + 1);
    }
  }

  /**
   * The counts of the dictionary built from the first ten builds add up to
   * the number of failed builds among them, so to at most ten.
   */
  lemma SummaryTotal(builds: seq<Build>, consoleText: string -> string)
    ensures Total(Tally(Reasons(Failures(Examined(builds)), consoleText))) == |Failures(Examined(builds))| <= Window
  {
    var failed := Failures(Examined(builds));
    ReasonsLength(failed, consoleText);
    TallyTotal(Reasons(failed, consoleText));
  }

  /** Index of the first occurrence of `c` in `rs`. */
  function FirstIndex(rs: seq<Category>, c: Category): (k: nat)
    requires c in rs
    ensures k < |rs| && rs[k] == c && c !in rs[..k]
  {
    if rs[0] == c then 0 else 1 + FirstIndex(rs[1..], c)
  }

  /** Appending leaves the first occurrence of an earlier category where it was. */
  lemma FirstIndexAppend(init: seq<Category>, r: Category, c: Category)
    requires c in init
    ensures FirstIndex(init + [r], c) == FirstIndex(init, c)
  {
    var k := FirstIndex(init, c);
    var k' := FirstIndex(init + [r], c);
    assert (init + [r])[k] == c;
    assert (init + [r])[..k] == init[..k];
  }

  /** The keys appear in the order in which their categories first occur. */
  lemma {:induction false} TallyOrder(reasons: seq<Category>)
    ensures forall c :: c in Keys(Tally(reasons)) ==> c in reasons
    ensures forall i, j :: 0 <= i < j < |Keys(Tally(reasons))| ==>
              FirstIndex(reasons, Keys(Tally(reasons))[i]) < FirstIndex(reasons, Keys(Tally(reasons))[j])
  {
    TallyKeys(reasons);
    if reasons != [] {
      var init := reasons[..|reasons| - 1];
      var r := reasons[|reasons| - 1];
      assert reasons == init + [r];
      var s := Tally(init);
      var ks := Keys(Tally(reasons));
      TallyOrder(init);
      TallyKeys(init);
      PutKeys(s, r, Get(s, r) + 1);
      forall i, j | 0 <= i < j < |ks|
        ensures FirstIndex(reasons, ks[i]) < FirstIndex(reasons, ks[j])
      {
        FirstIndexAppend(init, r, ks[i]);
        if j < |Keys(s)| {
          FirstIndexAppend(init, r, ks[j]);
        } else {
          assert ks[j] == r && r !in init;
        }
      }
    }
  }

  // ---------------------------------------------------------------------------
  // The tally loop and the report
  // ---------------------------------------------------------------------------

  /**
   * The loop over `builds[:10]`: for each build whose result is not exactly
   * "SUCCESS", fetch its console log, classify it and count the category.
   * Returns the dictionary and the log URLs fetched, in order.
   */
  method SummarizeFailures(builds: seq<Build>, consoleText: string -> string)
    returns (summary: Summary, fetched: seq<string>)
    ensures fetched == LogUrls(Failures(Examined(builds)))
    ensures summary == Tally(Reasons(Failures(Examined(builds)), consoleText))
  {
    var examined := Examined(builds);
    summary, fetched := [], [];
    for i := 0 to |examined|
      invariant fetched == LogUrls(Failures(examined[..i]))
      invariant summary == Tally(Reasons(Failures(examined[..i]), consoleText))
    {
      var build := examined[i];
      SummarizeStep(examined, i, consoleText);
      if IsFailure(build) {
        var logUrl := LogUrl(build);
        var reason := Classify(consoleText(logUrl));
        fetched := fetched + [logUrl];
        summary := Put(summary, reason, Get(summary, reason) + 1);
      }
    }
    assert examined[..|examined|] == examined;
  }

  /** The report loop: one (category string, count) pair per key, in dict order. */
  method Report(summary: Summary) returns (lines: seq<(string, nat)>)
    ensures |lines| == |summary|
    ensures forall i :: 0 <= i < |summary| ==> lines[i] == (Label(summary[i].category), summary[i].count)
  {
    lines := [];
    for i := 0 to |summary|
      invariant |lines| == i
      invariant forall j :: 0 <= j < i ==> lines[j] == (Label(summary[j].category), summary[j].count)
    {
      lines := lines + [(Label(summary[i].category), summary[i].count)];
    }
  }

  /** The report lines that the report loop prints for the dict `s`. */
  ghost predicate IsReportOf(lines: seq<(string, nat)>, s: Summary) {
    |lines| == |s| && forall i :: 0 <= i < |s| ==> lines[i] == (Label(s[i].category), s[i].count)
  }

  /** The report of a tally has a line for a category exactly when the category occurs. */
  lemma ReportCoversReasons(reasons: seq<Category>, lines: seq<(string, nat)>)
    requires IsReportOf(lines, Tally(reasons))
    ensures forall c :: c in reasons <==> exists i :: 0 <= i < |lines| && lines[i].0 == Label(c)
  {
    var summary := Tally(reasons);
    TallyKeys(reasons);
    forall c ensures c in reasons <==> exists i :: 0 <= i < |lines| && lines[i].0 == Label(c) {
      if c in reasons {
        var i :| 0 <= i < |summary| && Keys(summary)[i] == c;
        assert lines[i].0 == Label(c);
      }
      if i :| 0 <= i < |lines| && lines[i].0 == Label(c) {
        LabelInjective(summary[i].category, c);
        assert Keys(summary)[i] == c;
      }
    }
  }

  /** Each line of the report of a tally gives a category that occurs and its number of occurrences. */
  lemma ReportCounts(reasons: seq<Category>, lines: seq<(string, nat)>)
    requires IsReportOf(lines, Tally(reasons))
    ensures forall i :: 0 <= i < |lines| ==> exists c :: c in reasons && lines[i] == (Label(c), multiset(reasons)[c])
  {
    var summary := Tally(reasons);
    TallyKeys(reasons);
    forall i | 0 <= i < |lines|
      ensures exists c :: c in reasons && lines[i] == (Label(c), multiset(reasons)[c])
    {
      TallyEntry(reasons, i);
      assert Keys(summary)[i] in reasons;
    }
  }

  /** No category is reported twice. */
  lemma ReportDistinct(reasons: seq<Category>, lines: seq<(string, nat)>)
    requires IsReportOf(lines, Tally(reasons))
    ensures forall i, j :: 0 <= i < j < |lines| ==> lines[i].0 != lines[j].0
  {
    var summary := Tally(reasons);
    TallyKeys(reasons);
    forall i, j | 0 <= i < j < |lines| ensures lines[i].0 != lines[j].0 {
      assert summary[i].category != summary[j].category by {
        assert Keys(summary)[i] != Keys(summary)[j];
      }
      if lines[i].0 == lines[j].0 {
        LabelInjective(summary[i].category, summary[j].category);
      }
    }
  }

  /**
   * The whole script once the Jenkins responses are given: one log is fetched
   * per failed build of the window, so at most ten; the report is that of the
   * tally of their categories (so its order is first occurrence, TallyOrder,
   * and its counts add up to the failures, TallyTotal): one line per category
   * that occurred, none for the others, each with its number of builds.
   */
  method AnalyzeBuilds(builds: seq<Build>, consoleText: string -> string)
    returns (fetched: seq<string>, lines: seq<(string, nat)>)
    ensures fetched == LogUrls(Failures(Examined(builds)))
    ensures |fetched| == |Failures(Examined(builds))| <= Window
    ensures IsReportOf(lines, Tally(Reasons(Failures(Examined(builds)), consoleText)))
  {
    var summary;
    summary, fetched := SummarizeFailures(builds, consoleText);
    lines := Report(summary);
    ghost var failed := Failures(Examined(builds));
    ReasonsLength(failed, consoleText);
    assert |fetched| == |failed| <= Window;
  }
}
