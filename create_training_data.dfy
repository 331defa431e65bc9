/** The training-set labeller (create_training_data.py): parses the access log
    with three regular expressions, sorts the entries by time, and labels each
    entry by the request rate of the trailing 30-second window over ALL
    entries, whatever their source. The labelled rows are what the classifier
    wrapper trains on, so the script writes them to the `Disk` the wrapper reads. */
module CreateTrainingData {
  import opened Common
  import opened Text
  import Sorting
  import Database
  import Utils
  import Model
  import Tailer
  import LineParser

  /** `window_size = 30` */
  const WindowSeconds := 30

  /** A rate above this labels the row as an attack. */
  const RateThreshold := 10.0

  // ---------------------------------------------------------------------------
  // The three regular expressions

  /** The capture groups `([\d.]+)` after `IP: ` and `([^,]+)` after `URL: `. */
  datatype Group = IpGroup | UrlGroup

  function Marker(g: Group): (m: string)
    ensures |m| >= 4
  {
    match g
    case IpGroup => "IP: "
    case UrlGroup => "URL: "
  }

  /** The characters the group's class matches; neither class holds a comma. */
  predicate InClass(g: Group, c: char)
    ensures InClass(g, c) ==> c != ','
  {
    match g
    case IpGroup => IsDigit(c) || c == '.'
    case UrlGroup => c != ','
  }

  /** Length of the longest run of class characters from `i` on. */
  function RunLength(s: string, i: nat, g: Group): (n: nat)
    requires i <= |s|
    decreases |s| - i
    ensures i + n <= |s|
    ensures forall k :: i <= k < i + n ==> InClass(g, s[k])
    ensures i + n == |s| || !InClass(g, s[i + n])
  {
    if i == |s| || !InClass(g, s[i]) then 0 else 1 + RunLength(s, i + 1, g)
  }

  /** A match of `<class>+,` whose class run starts at `start` and has length `n`. */
  predicate RunThenComma(s: string, start: nat, n: nat, g: Group) {
    && 1 <= n && start + n < |s|
    && (forall k :: start <= k < start + n ==> InClass(g, s[k]))
    && s[start + n] == ','
  }

  /** The whole pattern `<marker>(<class>+),` at `p`, with a group of length `n`. */
  predicate PatternAt(s: string, g: Group, p: nat, n: nat) {
    IsAt(s, Marker(g), p) && RunThenComma(s, p + |Marker(g)|, n, g)
  }

  /** `re.match` of `<marker>(<class>+),` at position `p`, giving the group:
      the pattern matches there with exactly one group length. */
  function MatchAt(s: string, g: Group, p: nat): (r: Option<string>)
    ensures r.Some? ==> PatternAt(s, g, p, |r.value|)
    ensures r.Some? ==> r.value == s[p + |Marker(g)|..p + |Marker(g)| + |r.value|]
  {
    var m := Marker(g);
    if !IsAt(s, m, p) then None
    else
      var start := p + |m|;
      var n := RunLength(s, start, g);
      if 1 <= n && start + n < |s| && s[start + n] == ',' then Some(s[start..start + n])
      else None
  }

  /** No match at a position means no group length makes the pattern fit there. */
  lemma NoMatchNoPattern(s: string, g: Group, p: nat)
    requires MatchAt(s, g, p).None?
    ensures forall n: nat :: !PatternAt(s, g, p, n)
  {
    var m := Marker(g);
    if IsAt(s, m, p) {
      var start := p + |m|;
      var n := RunLength(s, start, g);
      forall n': nat ensures !RunThenComma(s, start, n', g) {
        if n' < n {
          assert InClass(g, s[start + n']);
        } else if n' > n && start + n' < |s| {
          assert !InClass(g, s[start + n]);
        }
      }
    }
  }

  /** Whether the pattern matches at each position of the line, end included. */
  function Hits(s: string, g: Group): (h: seq<bool>)
    ensures |h| == |s| + 1
    ensures forall q :: 0 <= q <= |s| ==> (h[q] <==> MatchAt(s, g, q).Some?)
  {
    seq(|s| + 1, q requires 0 <= q <= |s| => MatchAt(s, g, q).Some?)
  }

  /** The first set flag at or after `from`. */
  function FirstTrue(h: seq<bool>, from: nat): (r: Option<nat>)
    decreases |h| - from
    ensures r.Some? ==> from <= r.value < |h| && h[r.value]
    ensures r.Some? ==> forall q :: from <= q < r.value ==> !h[q]
    ensures r.None? ==> forall q :: from <= q < |h| ==> !h[q]
  {
    if from >= |h| then None
    else if h[from] then Some(from)
    else FirstTrue(h, from + 1)
  }

  lemma {:induction false} FirstTrueAt(h: seq<bool>, from: nat, p: nat)
    requires from <= p < |h| && h[p]
    requires forall q :: from <= q < p ==> !h[q]
    ensures FirstTrue(h, from) == Some(p)
    decreases p - from
  {
    if from < p {
      FirstTrueAt(h, from + 1, p);
    }
  }

  /** `re.search`: the leftmost position at or after `from` where the pattern matches. */
  function Search(s: string, g: Group, from: nat): (r: Option<nat>)
    ensures r.Some? ==> from <= r.value && MatchAt(s, g, r.value).Some?
  {
    FirstTrue(Hits(s, g), from)
  }

  /** The position found is the leftmost match; no position matches when none is found. */
  lemma SearchIsLeftmost(s: string, g: Group, from: nat)
    ensures Search(s, g, from).Some? ==>
      forall q :: from <= q < Search(s, g, from).value ==> MatchAt(s, g, q).None?
    ensures Search(s, g, from).None? ==> forall q: nat :: from <= q ==> MatchAt(s, g, q).None?
  {
    var h := Hits(s, g);
    if Search(s, g, from).None? {
      NoMatchPastEnd(s, g, |s| + 1);
      forall q: nat | from <= q ensures MatchAt(s, g, q).None? {
        if q <= |s| {
          assert !h[q];
        }
      }
    }
  }

  /** The pattern cannot match where its marker does not fit. */
  lemma NoMatchPastEnd(s: string, g: Group, from: nat)
    requires |s| < from
    ensures forall q: nat :: from <= q ==> MatchAt(s, g, q).None?
  {
    forall q: nat | from <= q ensures MatchAt(s, g, q).None? {
      assert !IsAt(s, Marker(g), q);
    }
  }

  /** `re.search(...).group(1)`: the group captured at the leftmost match;
      `None` where the search fails and `.group` raises `AttributeError`. */
  function GroupOf(s: string, g: Group): (r: Option<string>)
    ensures r.Some? ==> r.value != [] && forall k :: 0 <= k < |r.value| ==> InClass(g, r.value[k])
  {
    match Search(s, g, 0)
    case None => None
    case Some(p) =>
      var v := MatchAt(s, g, p).value;
      assert forall k :: 0 <= k < |v| ==> v[k] == s[p + |Marker(g)| + k];
      Some(v)
  }

  /** The search fails exactly when the pattern matches nowhere in the line. */
  lemma GroupOfNone(s: string, g: Group)
    ensures GroupOf(s, g).None? <==> forall p: nat, n: nat :: !PatternAt(s, g, p, n)
  {
    if GroupOf(s, g).Some? {
      var p := Search(s, g, 0).value;
      assert PatternAt(s, g, p, |MatchAt(s, g, p).value|);
    } else {
      SearchIsLeftmost(s, g, 0);
      forall p: nat, n: nat ensures !PatternAt(s, g, p, n) {
        NoMatchNoPattern(s, g, p);
      }
    }
  }

  /** A class run followed by a comma is the longest class run. */
  lemma {:induction false} RunLengthExact(s: string, i: nat, g: Group, n: nat)
    requires RunThenComma(s, i, n, g)
    ensures RunLength(s, i, g) == n
    decreases n
  {
    assert InClass(g, s[i]);
    if n == 1 {
      assert !InClass(g, s[i + 1]);
    } else {
      RunLengthExact(s, i + 1, g, n - 1);
    }
  }

  /** Where the marker is followed by a class run and a comma, the group is that run. */
  lemma MatchAtRun(s: string, g: Group, p: nat, n: nat)
    requires IsAt(s, Marker(g), p) && RunThenComma(s, p + |Marker(g)|, n, g)
    ensures MatchAt(s, g, p) == Some(s[p + |Marker(g)|..p + |Marker(g)| + n])
  {
    RunLengthExact(s, p + |Marker(g)|, g, n);
  }

  /** `re.search(r"Time: (.*)", line).group(1)`: after the first `Time: `, up to
      the end of the line (`.` does not match a newline). */
  function TimeGroup(s: string): (r: Option<string>)
    ensures r.None? <==> !Contains(s, "Time: ")
    ensures r.Some? ==> '\n' !in r.value
  {
    match Find(s, "Time: ", 0)
    case None => None
    case Some(p) =>
      var rest := s[p + 6..];
      var v := SplitHead(rest, "\n");
      assert '\n' !in v by {
        forall k | 0 <= k < |v| ensures v[k] != '\n' {
          assert !IsAt(rest, "\n", k);
          assert rest[k..k + 1] == [v[k]];
        }
      }
      Some(v)
  }

  // ---------------------------------------------------------------------------
  // One line

  /** What the `try` block does with one line. */
  datatype LineOutcome = Kept(entry: Database.Entry) | Skipped | Aborted

  /** The loop body as written: a failed search raises `AttributeError`, which
      skips the line, but `pd.to_datetime` raises a parser error the handler
      does not catch, so a line with an unreadable time aborts the script. */
  function ParseTrainingLineAsWritten(line: string): LineOutcome {
    match (GroupOf(line, IpGroup), TimeGroup(line), GroupOf(line, UrlGroup))
    case (Some(ip), Some(time), Some(url)) =>
      (match LineParser.ParseTimestamp(time)
       case None => Aborted
       case Some(t) => Kept(Database.Entry(ip, t, url)))
    case _ => Skipped
  }

  /** The loop body as intended: every malformed line is skipped, one with an
      unreadable time included. */
  function ParseTrainingLine(line: string): (r: Option<Database.Entry>)
    ensures r.Some? ==> r.value.ip != [] && r.value.url != [] && r.value.timestamp >= 0
    ensures r.Some? ==> ',' !in r.value.ip && ',' !in r.value.url
  {
    match (GroupOf(line, IpGroup), TimeGroup(line), GroupOf(line, UrlGroup))
    case (Some(ip), Some(time), Some(url)) =>
      (match LineParser.ParseTimestamp(time)
       case None => None
       case Some(t) => Some(Database.Entry(ip, t, url)))
    case _ => None
  }

  /** The two agree on every line except one that all three patterns match
      and whose time text is not a time: that line aborts the script as
      written and is skipped as intended. */
  lemma AsWrittenDiffersOnlyOnBadTime(line: string)
    ensures ParseTrainingLineAsWritten(line) == Aborted <==>
      && GroupOf(line, IpGroup).Some? && GroupOf(line, UrlGroup).Some? && TimeGroup(line).Some?
      && LineParser.ParseTimestamp(TimeGroup(line).value).None?
    ensures ParseTrainingLineAsWritten(line) != Aborted ==>
      ParseTrainingLineAsWritten(line) == (match ParseTrainingLine(line)
                                           case None => Skipped
                                           case Some(e) => Kept(e))
  {
  }

  /** `IP: 1, URL: /, Time: x`: every pattern matches, the time does not parse. */
  lemma ExampleMatches()
    ensures GroupOf("IP: 1, URL: /, Time: x", IpGroup) == Some("1")
    ensures GroupOf("IP: 1, URL: /, Time: x", UrlGroup) == Some("/")
    ensures TimeGroup("IP: 1, URL: /, Time: x") == Some("x")
  {
    ExampleAddress();
    ExampleUrl();
    ExampleTime();
  }

  lemma ExampleAddress()
    ensures GroupOf("IP: 1, URL: /, Time: x", IpGroup) == Some("1")
  {
    var s := "IP: 1, URL: /, Time: x";
    assert IsAt(s, "IP: ", 0);
    assert s[4..5] == "1" && s[5] == ',';
    RunLengthExact(s, 4, IpGroup, 1);
    assert MatchAt(s, IpGroup, 0) == Some("1");
  }

  lemma ExampleUrl()
    ensures GroupOf("IP: 1, URL: /, Time: x", UrlGroup) == Some("/")
  {
    var s := "IP: 1, URL: /, Time: x";
    ExampleUrlMarker();
    ExampleUrlMatch();
    FirstMarkerMatch(s, UrlGroup, 7, "/");
  }

  lemma ExampleUrlMarker()
    ensures Find("IP: 1, URL: /, Time: x", "URL: ", 0) == Some(7)
  {
    var s := "IP: 1, URL: /, Time: x";
    assert IsAt(s, "URL: ", 7);
    forall q: nat | q < 7 ensures !IsAt(s, "URL: ", q) {
      assert s[q] != 'U';
      LineParser.Mismatch(s, "URL: ", q, 0);
    }
    FindSome(s, "URL: ", 7);
  }

  lemma ExampleUrlMatch()
    ensures MatchAt("IP: 1, URL: /, Time: x", UrlGroup, 7) == Some("/")
  {
    var s := "IP: 1, URL: /, Time: x";
    assert IsAt(s, "URL: ", 7);
    assert s[12..13] == "/" && s[13] == ',';
    MatchAtRun(s, UrlGroup, 7, 1);
  }

  lemma ExampleTime()
    ensures TimeGroup("IP: 1, URL: /, Time: x") == Some("x")
  {
    var s := "IP: 1, URL: /, Time: x";
    assert IsAt(s, "Time: ", 15);
    forall j: nat | j < 15 ensures !IsAt(s, "Time: ", j) {
      LineParser.Mismatch(s, "Time: ", j, 0);
    }
    FindSome(s, "Time: ", 15);
    assert s[21..] == "x";
    LineParser.Mismatch("x", "\n", 0, 0);
    assert Find("x", "\n", 0) == None;
  }

  /** As written, one line with an unreadable time aborts the whole script. */
  lemma UnreadableTimeAborts()
    ensures ParseTrainingLineAsWritten("IP: 1, URL: /, Time: x") == Aborted
  {
    ExampleMatches();
  }

  /** As intended, the same line is skipped like any other malformed line. */
  lemma UnreadableTimeSkipped()
    ensures ParseTrainingLine("IP: 1, URL: /, Time: x") == None
  {
    ExampleMatches();
  }

  /** The patterns read back what the front end writes when the address is
      digits and dots and the URL is non-empty, has no comma and no `Time: `. */
  lemma ParseTrainingProducerLine(ip: string, url: string, t: nat)
    requires ip != [] && forall k :: 0 <= k < |ip| ==> InClass(IpGroup, ip[k])
    requires url != [] && ',' !in url && !Contains(url, "Time: ")
    ensures ParseTrainingLine(LineParser.ProducerLine(ip, url, t)) == Some(Database.Entry(ip, t, url))
  {
    var line := LineParser.ProducerLine(ip, url, t);
    var time := NatToString(t);
    LineParser.ProducerLineLayout(ip, url, t);
    IpOfLaidOutLine(line, ip, url, time);
    UrlOfLaidOutLine(line, ip, url, time);
    TimeOfLaidOutLine(line, ip, url, time);
    ParseNatToString(t);
  }

  lemma NoCommaNoSpaceInAddress(ip: string)
    requires forall k :: 0 <= k < |ip| ==> InClass(IpGroup, ip[k])
    ensures ',' !in ip && ' ' !in ip
  {
    forall k | 0 <= k < |ip| ensures ip[k] != ',' && ip[k] != ' ' {
      assert InClass(IpGroup, ip[k]);
    }
  }

  lemma IpOfLaidOutLine(line: string, ip: string, url: string, time: string)
    requires LineParser.Layout(line, ip, url, time)
    requires ip != [] && forall k :: 0 <= k < |ip| ==> InClass(IpGroup, ip[k])
    ensures GroupOf(line, IpGroup) == Some(ip)
  {
    var c1 := 4 + |ip|;
    assert IsAt(line, "IP: ", 0);
    forall k | 4 <= k < c1 ensures line[k] == ip[k - 4] {
      assert line[k] == line[4..][k - 4];
    }
    assert line[c1] == line[4..][|ip|] == ',';
    assert RunThenComma(line, 4, |ip|, IpGroup);
    RunLengthExact(line, 4, IpGroup, |ip|);
    assert line[4..c1] == ip;
  }

  lemma UrlOfLaidOutLine(line: string, ip: string, url: string, time: string)
    requires LineParser.Layout(line, ip, url, time)
    requires forall k :: 0 <= k < |ip| ==> InClass(IpGroup, ip[k])
    requires url != [] && ',' !in url
    ensures GroupOf(line, UrlGroup) == Some(url)
  {
    NoCommaNoSpaceInAddress(ip);
    UrlMarkerOfLaidOutLine(line, ip, url, time);
    UrlMatchOfLaidOutLine(line, ip, url, time);
    FirstMarkerMatch(line, UrlGroup, 4 + |ip| + 2, url);
  }

  lemma UrlMarkerOfLaidOutLine(line: string, ip: string, url: string, time: string)
    requires LineParser.Layout(line, ip, url, time)
    requires ',' !in ip && ' ' !in ip
    ensures Find(line, Marker(UrlGroup), 0) == Some(4 + |ip| + 2)
  {
    LineParser.FirstUrlMarker(line, ip, url, time);
    assert Marker(UrlGroup) == "URL: ";
  }

  lemma UrlMatchOfLaidOutLine(line: string, ip: string, url: string, time: string)
    requires LineParser.Layout(line, ip, url, time)
    requires ',' !in ip && ' ' !in ip
    requires url != [] && ',' !in url
    ensures MatchAt(line, UrlGroup, 4 + |ip| + 2) == Some(url)
  {
    UrlMarkerOfLaidOutLine(line, ip, url, time);
    assert |Marker(UrlGroup)| == 5;
    UrlRun(line, ip, url, time);
    MatchAtRun(line, UrlGroup, 4 + |ip| + 2, |url|);
  }

  /** The URL of such a line is a run of its class followed by a comma. */
  lemma UrlRun(line: string, ip: string, url: string, time: string)
    requires LineParser.Layout(line, ip, url, time)
    requires url != [] && ',' !in url
    ensures RunThenComma(line, 4 + |ip| + 7, |url|, UrlGroup)
    ensures line[4 + |ip| + 7..4 + |ip| + 7 + |url|] == url
  {
    var u := 4 + |ip| + 7;
    var tail := url + [','] + (" Time: " + time + "\n");
    forall k | u <= k < u + |url| ensures line[k] == url[k - u] && InClass(UrlGroup, line[k]) {
      assert line[k] == tail[k - u];
      assert url[k - u] in url;
    }
    assert line[u + |url|] == tail[|url|] == ',';
  }

  /** `re.search` finds the group at the first marker when the pattern matches there. */
  lemma FirstMarkerMatch(s: string, g: Group, p: nat, v: string)
    requires Find(s, Marker(g), 0) == Some(p) && MatchAt(s, g, p) == Some(v)
    ensures GroupOf(s, g) == Some(v)
  {
    forall q: nat | q < p ensures MatchAt(s, g, q).None? {
      assert !IsAt(s, Marker(g), q);
    }
    SearchSome(s, g, 0, p);
  }

  lemma SearchSome(s: string, g: Group, from: nat, p: nat)
    requires from <= p && MatchAt(s, g, p).Some?
    requires forall q :: from <= q < p ==> MatchAt(s, g, q).None?
    ensures Search(s, g, from) == Some(p)
  {
    var h := Hits(s, g);
    assert p <= |s| by {
      assert IsAt(s, Marker(g), p);
    }
    FirstTrueAt(h, from, p);
  }

  lemma TimeOfLaidOutLine(line: string, ip: string, url: string, time: string)
    requires LineParser.Layout(line, ip, url, time)
    requires forall k :: 0 <= k < |ip| ==> InClass(IpGroup, ip[k])
    requires !Contains(url, "Time: ") && AllDigits(time)
    ensures TimeGroup(line) == Some(time)
  {
    var c2 := 4 + |ip| + 7 + |url|;
    NoCommaNoSpaceInAddress(ip);
    LineParser.FirstTimeMarker(line, ip, url, time);
    var rest := line[c2 + 8..];
    assert rest == time + "\n";
    assert IsAt(rest, "\n", |time|);
    forall j: nat | j < |time| ensures !IsAt(rest, "\n", j) {
      assert rest[j] == time[j];
      LineParser.Mismatch(rest, "\n", j, 0);
    }
    FindSome(rest, "\n", |time|);
  }

  // ---------------------------------------------------------------------------
  // The parsed log

  /** What the loop body makes of each line, in line order. */
  function ParseEach(lines: seq<string>): (ps: seq<Option<Database.Entry>>)
    ensures |ps| == |lines|
    ensures forall i :: 0 <= i < |lines| ==> ps[i] == ParseTrainingLine(lines[i])
  {
    seq(|lines|, i requires 0 <= i < |lines| => ParseTrainingLine(lines[i]))
  }

  /** `parsed_logs`: the entries of the lines that parsed, in line order. */
  function Survivors(ps: seq<Option<Database.Entry>>): (es: seq<Database.Entry>)
    ensures |es| <= |ps|
  {
    if ps == [] then []
    else
      var front := Survivors(ps[..|ps| - 1]);
      match ps[|ps| - 1]
      case None => front
      case Some(e) => front + [e]
  }

  /** The parse loop as intended: every line that parses, in line order. */
  function ParsedEntries(lines: seq<string>): (es: seq<Database.Entry>)
    ensures |es| <= |lines|
  {
    Survivors(ParseEach(lines))
  }

  lemma SurvivorsSnoc(ps: seq<Option<Database.Entry>>, p: Option<Database.Entry>)
    ensures Survivors(ps + [p]) == if p.Some? then Survivors(ps) + [p.value] else Survivors(ps)
  {
    assert (ps + [p])[..|ps|] == ps;
  }

  lemma {:induction false} SurvivorsSound(ps: seq<Option<Database.Entry>>, e: Database.Entry)
    requires e in Survivors(ps)
    ensures exists i :: 0 <= i < |ps| && ps[i] == Some(e)
    decreases |ps|
  {
    var front := ps[..|ps| - 1];
    if e in Survivors(front) {
      SurvivorsSound(front, e);
      var i :| 0 <= i < |front| && front[i] == Some(e);
      assert ps[i] == front[i];
    } else {
      assert ps[|ps| - 1] == Some(e);
    }
  }

  lemma {:induction false} SurvivorsComplete(ps: seq<Option<Database.Entry>>, i: nat, e: Database.Entry)
    requires i < |ps| && ps[i] == Some(e)
    ensures e in Survivors(ps)
    decreases |ps|
  {
    var front := ps[..|ps| - 1];
    if i < |front| {
      assert front[i] == ps[i];
      SurvivorsComplete(front, i, e);
    }
  }

  /** An entry is in the parsed log exactly when some line parses to it. */
  lemma ParsedEntriesExact(lines: seq<string>, e: Database.Entry)
    ensures e in ParsedEntries(lines) <==> exists i :: 0 <= i < |lines| && ParseTrainingLine(lines[i]) == Some(e)
  {
    var ps := ParseEach(lines);
    if e in ParsedEntries(lines) {
      SurvivorsSound(ps, e);
    }
    if exists i :: 0 <= i < |lines| && ParseTrainingLine(lines[i]) == Some(e) {
      var i :| 0 <= i < |lines| && ParseTrainingLine(lines[i]) == Some(e);
      SurvivorsComplete(ps, i, e);
    }
  }

  /** A line that does not parse is dropped and the lines around it are still read. */
  lemma MalformedLineSkipped(a: seq<string>, bad: string, b: seq<string>)
    requires ParseTrainingLine(bad).None?
    ensures ParsedEntries(a + [bad] + b) == ParsedEntries(a) + ParsedEntries(b)
  {
    var pa, pb := ParseEach(a), ParseEach(b);
    ParseEachAround(a, bad, b);
    SurvivorsAppend(pa + [None], pb);
    SurvivorsSnoc(pa, None);
  }

  lemma ParseEachAround(a: seq<string>, x: string, b: seq<string>)
    ensures ParseEach(a + [x] + b) == ParseEach(a) + [ParseTrainingLine(x)] + ParseEach(b)
  {
    ParseEachAppend(a + [x], b);
    ParseEachAppend(a, [x]);
  }

  lemma ParseEachAppend(a: seq<string>, b: seq<string>)
    ensures ParseEach(a + b) == ParseEach(a) + ParseEach(b)
  {
    var l := ParseEach(a) + ParseEach(b);
    forall i | 0 <= i < |a + b| ensures ParseEach(a + b)[i] == l[i] {
      if i < |a| {
        assert (a + b)[i] == a[i];
      } else {
        assert (a + b)[i] == b[i - |a|];
      }
    }
  }

  lemma {:induction false} SurvivorsAppend(ps: seq<Option<Database.Entry>>, qs: seq<Option<Database.Entry>>)
    ensures Survivors(ps + qs) == Survivors(ps) + Survivors(qs)
    decreases |qs|
  {
    if qs == [] {
      assert ps + qs == ps;
    } else {
      var last := qs[|qs| - 1];
      var init := qs[..|qs| - 1];
      assert ps + qs == (ps + init) + [last];
      assert qs == init + [last];
      SurvivorsAppend(ps, init);
      SurvivorsSnoc(ps + init, last);
      SurvivorsSnoc(init, last);
    }
  }

  /** `sort_values('timestamp')`. */
  function ByTime(e: Database.Entry): int {
    e.timestamp
  }

  function SortByTime(es: seq<Database.Entry>): (r: seq<Database.Entry>)
    ensures Sorting.SortedBy(r, ByTime)
    ensures multiset(r) == multiset(es)
    ensures |r| == |es|
  {
    Sorting.SortBy(es, ByTime)
  }

  // ---------------------------------------------------------------------------
  // Labelling

  /** `timestamp <= current_time and timestamp > current_time - 30 s`. */
  predicate InTrailingWindow(e: Database.Entry, t: int) {
    t - WindowSeconds < e.timestamp <= t
  }

  /** `window_df`: the entries of every source in `(t - 30, t]`, in table order. */
  function TrailingWindow(es: seq<Database.Entry>, t: int): (w: seq<Database.Entry>)
    ensures |w| <= |es|
    ensures forall e :: multiset(w)[e] == if InTrailingWindow(e, t) then multiset(es)[e] else 0
  {
    if es == [] then []
    else
      assert es == [es[0]] + es[1..];
      var rest := TrailingWindow(es[1..], t);
      if InTrailingWindow(es[0], t) then [es[0]] + rest else rest
  }

  function UrlsOf(es: seq<Database.Entry>): (urls: seq<string>)
    ensures |urls| == |es| && forall i :: 0 <= i < |es| ==> urls[i] == es[i].url
  {
    if es == [] then [] else [es[0].url] + UrlsOf(es[1..])
  }

  /** `label = 1 if request_rate > 10.0 else 0`. */
  function Label(rate: real): (verdict: int)
    ensures verdict == 1 <==> rate > RateThreshold
    ensures verdict == 0 <==> rate <= RateThreshold
  {
    if rate > RateThreshold then 1 else 0
  }

  /** The record of the row at `i` of the sorted table. */
  function Record(rows: seq<Database.Entry>, i: nat): Model.TrainingRow
    requires i < |rows|
  {
    var f := Utils.ComputeFeatures(UrlsOf(TrailingWindow(rows, rows[i].timestamp)), WindowSeconds);
    Model.TrainingRow(rows[i].ip, f.requestRate, f.uniqueUrlsProxy, Label(f.requestRate))
  }

  /** The records loop: one record per row, in row order, each carrying its row's address. */
  function Records(rows: seq<Database.Entry>): (out: seq<Model.TrainingRow>)
    ensures |out| == |rows|
    ensures forall i :: 0 <= i < |rows| ==> out[i] == Record(rows, i) && out[i].srcIp == rows[i].ip
  {
    seq(|rows|, i requires 0 <= i < |rows| => Record(rows, i))
  }

  /** A row is always in its own window, so every record's rate is at least
      one request per window, i.e. at least 1/30. */
  lemma RateAtLeastOnePerWindow(rows: seq<Database.Entry>, i: nat)
    requires i < |rows|
    ensures Record(rows, i).requestRate * WindowSeconds as real >= 1.0
    ensures Record(rows, i).requestRate >= 1.0 / 30.0
  {
    var w := TrailingWindow(rows, rows[i].timestamp);
    assert rows[i] in multiset(rows);
    assert rows[i] in multiset(w);
    assert |w| >= 1;
  }

  /** The label is 1 exactly when more than 300 requests, from any source,
      fall in the row's 30-second window. */
  lemma LabelCountsRequests(rows: seq<Database.Entry>, i: nat)
    requires i < |rows|
    ensures Record(rows, i).classLabel == 1 <==> |TrailingWindow(rows, rows[i].timestamp)| > 300
    ensures Record(rows, i).classLabel == 0 <==> |TrailingWindow(rows, rows[i].timestamp)| <= 300
  {
    RateAtLeastOnePerWindow(rows, i);
  }

  /** The window is not filtered by source: two rows at the same time carry the
      same rate, URL count and label, whatever their addresses. */
  lemma SameTimeSameLabel(rows: seq<Database.Entry>, i: nat, j: nat)
    requires i < |rows| && j < |rows| && rows[i].timestamp == rows[j].timestamp
    ensures Record(rows, i).(srcIp := rows[j].ip) == Record(rows, j)
  {
  }

  /** Sorting first changes only the order of the records: each record's
      features are those of its time's window over the entries in parse order. */
  lemma SortingKeepsFeatures(parsed: seq<Database.Entry>, i: nat)
    requires i < |parsed|
    ensures var sorted := SortByTime(parsed);
      var f := Utils.ComputeFeatures(UrlsOf(TrailingWindow(parsed, sorted[i].timestamp)), WindowSeconds);
      Record(sorted, i).requestRate == f.requestRate && Record(sorted, i).uniqueUrlsProxy == f.uniqueUrlsProxy
  {
    var sorted := SortByTime(parsed);
    WindowIgnoresOrder(sorted, parsed, sorted[i].timestamp);
  }

  /** The features of a window depend only on the multiset of entries it is taken over. */
  lemma WindowIgnoresOrder(a: seq<Database.Entry>, b: seq<Database.Entry>, t: int)
    requires multiset(a) == multiset(b)
    ensures Utils.ComputeFeatures(UrlsOf(TrailingWindow(a, t)), WindowSeconds)
         == Utils.ComputeFeatures(UrlsOf(TrailingWindow(b, t)), WindowSeconds)
  {
    var wa, wb := TrailingWindow(a, t), TrailingWindow(b, t);
    assert multiset(wa) == multiset(wb) by {
      forall e ensures multiset(wa)[e] == multiset(wb)[e] {
      }
    }
    assert |wa| == |multiset(wa)| == |multiset(wb)| == |wb|;
    SameUrls(wa, wb);
    SameUrls(wb, wa);
    assert Utils.DistinctUrls(UrlsOf(wa)) == Utils.DistinctUrls(UrlsOf(wb));
  }

  lemma SameUrls(a: seq<Database.Entry>, b: seq<Database.Entry>)
    requires multiset(a) == multiset(b)
    ensures forall u :: u in UrlsOf(a) ==> u in UrlsOf(b)
  {
    forall u | u in UrlsOf(a) ensures u in UrlsOf(b) {
      var i :| 0 <= i < |a| && UrlsOf(a)[i] == u;
      assert a[i] in multiset(b);
      var j :| 0 <= j < |b| && b[j] == a[i];
      assert UrlsOf(b)[j] == u;
    }
  }

  // ---------------------------------------------------------------------------
  // The script

  datatype ScriptError =
    | LogMissing      // FileNotFoundError: the log file does not exist
    | TimeUnreadable  // the parser error of `pd.to_datetime`, which the loop does not catch
    | NoEntries       // ValueError: no line of the log parsed

  /** What the loop body as written makes of each line, in line order. */
  function Outcomes(lines: seq<string>): (os: seq<LineOutcome>)
    ensures |os| == |lines|
    ensures forall i :: 0 <= i < |lines| ==> os[i] == ParseTrainingLineAsWritten(lines[i])
  {
    seq(|lines|, i requires 0 <= i < |lines| => ParseTrainingLineAsWritten(lines[i]))
  }

  /** Some line makes the parse loop as written raise. */
  predicate Aborts(lines: seq<string>) {
    Aborted in Outcomes(lines)
  }

  /** The loop as written over the lines' outcomes: the kept entries, in line
      order, unless a line raises out of the loop. */
  function Keep(os: seq<LineOutcome>): (r: Result<seq<Database.Entry>, ScriptError>)
    ensures r.Err? ==> r.error == TimeUnreadable
  {
    if os == [] then Ok([])
    else
      match Keep(os[..|os| - 1])
      case Err(err) => Err(err)
      case Ok(front) =>
        match os[|os| - 1]
        case Aborted => Err(TimeUnreadable)
        case Skipped => Ok(front)
        case Kept(e) => Ok(front + [e])
  }

  /** The parse loop as written. */
  function ParsedLog(lines: seq<string>): Result<seq<Database.Entry>, ScriptError> {
    Keep(Outcomes(lines))
  }

  /** The outcome the intended parse of a line stands for. */
  function AsOutcome(p: Option<Database.Entry>): LineOutcome {
    match p
    case None => Skipped
    case Some(e) => Kept(e)
  }

  /** Outcomes that agree with the intended parses except where they abort. */
  predicate AgreeUnlessAborted(os: seq<LineOutcome>, ps: seq<Option<Database.Entry>>) {
    |os| == |ps| && forall i :: 0 <= i < |os| && os[i] != Aborted ==> os[i] == AsOutcome(ps[i])
  }

  lemma OutcomesAgree(lines: seq<string>)
    ensures AgreeUnlessAborted(Outcomes(lines), ParseEach(lines))
  {
    forall i | 0 <= i < |lines| {
      AsWrittenDiffersOnlyOnBadTime(lines[i]);
    }
  }

  /** The loop over such outcomes fails exactly when one of them aborts, and
      otherwise keeps exactly the intended survivors. */
  lemma {:induction false} KeepAgrees(os: seq<LineOutcome>, ps: seq<Option<Database.Entry>>)
    requires AgreeUnlessAborted(os, ps)
    ensures Keep(os) == if Aborted in os then Err(TimeUnreadable) else Ok(Survivors(ps))
    decreases |os|
  {
    if os != [] {
      var n := |os|;
      var fo, fp := os[..n - 1], ps[..n - 1];
      assert AgreeUnlessAborted(fo, fp);
      KeepAgrees(fo, fp);
      assert os == fo + [os[n - 1]];
      assert Aborted in os <==> Aborted in fo || os[n - 1] == Aborted;
    }
  }

  /** The loop as written fails exactly when some line aborts it, and
      otherwise keeps exactly what the intended loop keeps. */
  lemma ParsedLogAgrees(lines: seq<string>)
    ensures ParsedLog(lines) == if Aborts(lines) then Err(TimeUnreadable) else Ok(ParsedEntries(lines))
  {
    OutcomesAgree(lines);
    KeepAgrees(Outcomes(lines), ParseEach(lines));
  }

  /** The training set the script as written writes, for the log's content
      (`None` when there is no log). */
  function TrainingSet(log: Option<string>): (r: Result<seq<Model.TrainingRow>, ScriptError>)
    ensures log.None? <==> r == Err(LogMissing)
    ensures r == Err(TimeUnreadable) <==> log.Some? && Aborts(Tailer.SplitLines(log.value))
    ensures r == Err(NoEntries) <==>
      log.Some? && !Aborts(Tailer.SplitLines(log.value)) && ParsedEntries(Tailer.SplitLines(log.value)) == []
    ensures r.Ok? ==> |r.value| == |ParsedEntries(Tailer.SplitLines(log.value))|
  {
    match log
    case None => Err(LogMissing)
    case Some(content) =>
      var lines := Tailer.SplitLines(content);
      ParsedLogAgrees(lines);
      match ParsedLog(lines)
      case Err(err) => Err(err)
      case Ok(parsed) => if parsed == [] then Err(NoEntries) else Ok(Records(SortByTime(parsed)))
  }

  /** The script as intended: a line with an unreadable time is skipped like
      any other malformed line, so the script never aborts on one. */
  function IntendedTrainingSet(log: Option<string>): (r: Result<seq<Model.TrainingRow>, ScriptError>)
    ensures log.None? <==> r == Err(LogMissing)
    ensures r == Err(NoEntries) <==> log.Some? && ParsedEntries(Tailer.SplitLines(log.value)) == []
    ensures r != Err(TimeUnreadable)
    ensures r.Ok? ==> |r.value| == |ParsedEntries(Tailer.SplitLines(log.value))|
  {
    match log
    case None => Err(LogMissing)
    case Some(content) =>
      var parsed := ParsedEntries(Tailer.SplitLines(content));
      if parsed == [] then Err(NoEntries) else Ok(Records(SortByTime(parsed)))
  }

  /** The abort is the only difference: unless a line aborts it, the script
      as written produces what the intended script does. */
  lemma AbortIsTheOnlyDifference(log: Option<string>)
    ensures log.Some? && Aborts(Tailer.SplitLines(log.value)) ==> TrainingSet(log) == Err(TimeUnreadable)
    ensures !(log.Some? && Aborts(Tailer.SplitLines(log.value))) ==> TrainingSet(log) == IntendedTrainingSet(log)
  {
    if log.Some? {
      ParsedLogAgrees(Tailer.SplitLines(log.value));
    }
  }

  /** One line with an unreadable time costs the whole training set as
      written, however many other lines parse; the intended script writes
      the records of those lines. */
  lemma UnreadableTimeAbortsScript(content: string, i: nat, j: nat)
    requires i < |Tailer.SplitLines(content)| && j < |Tailer.SplitLines(content)|
    requires ParseTrainingLineAsWritten(Tailer.SplitLines(content)[i]) == Aborted
    requires ParseTrainingLine(Tailer.SplitLines(content)[j]).Some?
    ensures TrainingSet(Some(content)) == Err(TimeUnreadable)
    ensures IntendedTrainingSet(Some(content)).Ok?
  {
    var lines := Tailer.SplitLines(content);
    assert Outcomes(lines)[i] == Aborted;
    ParsedEntriesExact(lines, ParseTrainingLine(lines[j]).value);
  }

  /** One record per parsed line: the records' addresses are the parsed
      entries' addresses, each as often as it was logged. */
  lemma OneRecordPerEntry(content: string)
    requires TrainingSet(Some(content)).Ok?
    ensures var parsed := ParsedEntries(Tailer.SplitLines(content));
      multiset(Model.TrainingIps(TrainingSet(Some(content)).value)) == multiset(IpsOf(parsed))
  {
    var parsed := ParsedEntries(Tailer.SplitLines(content));
    ParsedLogAgrees(Tailer.SplitLines(content));
    var sorted := SortByTime(parsed);
    var out := Records(sorted);
    assert Model.TrainingIps(out) == IpsOf(sorted);
    IpsOfKeepsMultiset(sorted, parsed);
  }

  function IpsOf(es: seq<Database.Entry>): (ips: seq<string>)
    ensures |ips| == |es| && forall i :: 0 <= i < |es| ==> ips[i] == es[i].ip
  {
    seq(|es|, i requires 0 <= i < |es| => es[i].ip)
  }

  lemma {:induction false} IpsOfKeepsMultiset(a: seq<Database.Entry>, b: seq<Database.Entry>)
    requires multiset(a) == multiset(b)
    ensures multiset(IpsOf(a)) == multiset(IpsOf(b))
    decreases |a|
  {
    if a != [] {
      var j := IndexOf(b, a[0]);
      var rest := b[..j] + b[j + 1..];
      RemoveBoth(a, b, j);
      IpsOfKeepsMultiset(a[1..], rest);
      IpsAt(b, j);
      IpsOfAppend(b[..j], b[j + 1..]);
      IpsOfCons(a);
      var x, y, h := IpsOf(b[..j]), IpsOf(b[j + 1..]), a[0].ip;
      MultisetMiddle(x, h, y);
      calc {
        multiset(IpsOf(b));
        multiset(x + [h] + y);
        multiset(x + y) + multiset{h};
        multiset(IpsOf(a[1..])) + multiset{h};
        multiset(IpsOf(a));
      }
    } else {
      assert |b| == |multiset(b)| == 0;
    }
  }

  lemma IpsOfCons(a: seq<Database.Entry>)
    requires a != []
    ensures IpsOf(a) == [a[0].ip] + IpsOf(a[1..])
  {
    var l := [a[0].ip] + IpsOf(a[1..]);
    forall i | 0 <= i < |a| ensures l[i] == IpsOf(a)[i] {
      if i > 0 {
        assert l[i] == IpsOf(a[1..])[i - 1];
      }
    }
  }

  /** A position of a member of a sequence. */
  lemma IndexOf<T>(s: seq<T>, x: T) returns (j: nat)
    requires x in multiset(s)
    ensures j < |s| && s[j] == x
  {
    assert x in s;
    j :| 0 <= j < |s| && s[j] == x;
  }

  lemma MultisetMiddle<T>(x: seq<T>, m: T, y: seq<T>)
    ensures multiset(x + [m] + y) == multiset(x + y) + multiset{m}
  {
  }

  /** Taking the same element out of two permutations of each other leaves two permutations. */
  lemma RemoveBoth(a: seq<Database.Entry>, b: seq<Database.Entry>, j: nat)
    requires a != [] && j < |b| && b[j] == a[0] && multiset(a) == multiset(b)
    ensures multiset(a[1..]) == multiset(b[..j] + b[j + 1..])
  {
    var rest := b[..j] + b[j + 1..];
    assert b == b[..j] + [b[j]] + b[j + 1..];
    assert multiset(b) == multiset(rest) + multiset{b[j]};
    assert a == [a[0]] + a[1..];
    assert multiset(a) == multiset(a[1..]) + multiset{a[0]};
    assert multiset(a[1..]) == multiset(a) - multiset{a[0]};
    assert multiset(rest) == multiset(b) - multiset{b[j]};
  }

  lemma IpsOfAppend(a: seq<Database.Entry>, b: seq<Database.Entry>)
    ensures IpsOf(a + b) == IpsOf(a) + IpsOf(b)
  {
    var l := IpsOf(a) + IpsOf(b);
    forall i | 0 <= i < |a + b| ensures l[i] == IpsOf(a + b)[i] {
      if i < |a| {
        assert l[i] == IpsOf(a)[i];
      } else {
        assert l[i] == IpsOf(b)[i - |a|];
      }
    }
  }

  lemma IpsAt(s: seq<Database.Entry>, j: nat)
    requires j < |s|
    ensures IpsOf(s) == IpsOf(s[..j]) + [s[j].ip] + IpsOf(s[j + 1..])
  {
    var l := IpsOf(s[..j]) + [s[j].ip] + IpsOf(s[j + 1..]);
    forall i | 0 <= i < |s| ensures l[i] == IpsOf(s)[i] {
      if i < j {
        assert l[i] == IpsOf(s[..j])[i];
      } else if i > j {
        assert l[i] == IpsOf(s[j + 1..])[i - j - 1];
      }
    }
  }

  /** One more outcome: it decides how the loop so far goes on. */
  lemma KeepStep(os: seq<LineOutcome>, i: nat, parsed: seq<Database.Entry>)
    requires i < |os| && Keep(os[..i]) == Ok(parsed)
    ensures os[i].Skipped? ==> Keep(os[..i + 1]) == Ok(parsed)
    ensures os[i].Kept? ==> Keep(os[..i + 1]) == Ok(parsed + [os[i].entry])
    ensures os[i].Aborted? ==> Keep(os) == Err(TimeUnreadable)
  {
    var l := os[..i + 1];
    assert l[..|l| - 1] == os[..i] && l[|l| - 1] == os[i];
    if os[i].Aborted? {
      KeepFailsOnAbort(os);
    }
  }

  /** The loop as written fails exactly when some outcome aborts. */
  lemma {:induction false} KeepFailsOnAbort(os: seq<LineOutcome>)
    ensures Keep(os).Err? <==> Aborted in os
    decreases |os|
  {
    if os != [] {
      var front := os[..|os| - 1];
      KeepFailsOnAbort(front);
      assert os == front + [os[|os| - 1]];
    }
  }

  lemma TakeSnoc<T>(s: seq<T>, i: nat)
    requires i < |s|
    ensures s[..i + 1] == s[..i] + [s[i]]
  {
  }

  /** The parse loop over the log's lines; the parser error of a line with an
      unreadable time leaves the loop at once. */
  method ParseLog(lines: seq<string>) returns (r: Result<seq<Database.Entry>, ScriptError>)
    ensures r == ParsedLog(lines)
  {
    ghost var os := Outcomes(lines);
    var parsed := [];
    var i := 0;
    while i < |lines|
      invariant 0 <= i <= |lines|
      invariant Keep(os[..i]) == Ok(parsed)
    {
      var outcome := ParseTrainingLineAsWritten(lines[i]);
      KeepStep(os, i, parsed);
      match outcome {
        case Aborted =>
          return Err(TimeUnreadable);
        case Skipped =>
        case Kept(e) =>
          parsed := parsed + [e];
      }
      i := i + 1;
    }
    assert os[..i] == os;
    r := Ok(parsed);
  }

  /** The records loop over the sorted table. */
  method LabelRows(rows: seq<Database.Entry>) returns (records: seq<Model.TrainingRow>)
    ensures records == Records(rows)
  {
    records := [];
    var k := 0;
    while k < |rows|
      invariant 0 <= k <= |rows|
      invariant records == Records(rows)[..k]
    {
      var record := Record(rows, k);
      TakeSnoc(Records(rows), k);
      records := records + [record];
      k := k + 1;
    }
  }

  /** The script: read the log, parse it line by line, sort, label every row,
      and save the records as the training CSV the classifier wrapper reads.
      It stops before writing anything when the log is missing, a line's time
      is unreadable, or nothing parses. */
  method CreateTrainingSet(log: Option<string>, disk: Model.Disk) returns (r: Result<seq<Model.TrainingRow>, ScriptError>)
    modifies disk
    ensures r == TrainingSet(log)
    ensures r.Ok? ==> disk.trainingCsv == Some(r.value)
    ensures r.Err? ==> disk.trainingCsv == old(disk.trainingCsv)
    ensures disk.modelFile == old(disk.modelFile) && disk.encoderFile == old(disk.encoderFile)
  {
    if log.None? {
      return Err(LogMissing);
    }
    var parsed := ParseLog(Tailer.SplitLines(log.value));
    if parsed.Err? {
      return Err(parsed.error);
    }
    if parsed.value == [] {
      return Err(NoEntries);
    }
    var records := LabelRows(SortByTime(parsed.value));
    disk.trainingCsv := Some(records);
    r := Ok(records);
  }
}
