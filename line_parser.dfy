/** The monitor's line parser (monitoring.py): substring splitting on `IP: `,
    `URL: ` and `Time: ` of the line the web front end writes,
    `IP: <ip>, URL: <url>, Time: <time>`. Times are modelled as decimal
    seconds. */
module LineParser {
  import opened Common
  import opened Text
  import Database

  /** `pd.to_datetime` on the time text, with timestamps written as decimal seconds. */
  function ParseTimestamp(s: string): (t: Option<int>)
    ensures t.Some? ==> t.value >= 0
    ensures t.Some? <==> s != [] && AllDigits(s)
  {
    match ParseNat(s)
    case None => None
    case Some(n) => Some(n)
  }

  /** The entry built from the three split-off fields: the text up to the first
      comma for `ip` and `url`, the stripped time text. */
  function Fields(ipPart: string, urlPart: string, timePart: string): Option<Database.Entry> {
    match ParseTimestamp(Strip(timePart))
    case None => None
    case Some(t) => Some(Database.Entry(SplitHead(ipPart, ","), t, SplitHead(urlPart, ",")))
  }

  /** The parser as monitoring.py writes it: `line.split("Time: ")[1]` is the
      text between the first and the second `Time: `. */
  function ParseLineAsWritten(line: string): Option<Database.Entry> {
    match (SplitSecond(line, "IP: "), SplitSecond(line, "URL: "), SplitSecond(line, "Time: "))
    case (Some(a), Some(b), Some(c)) => Fields(a, b, c)
    case _ => None
  }

  /** The corrected parser: as written, except that the time is the text
      after the LAST `Time: `, which is where the front end puts it. */
  function ParseLine(line: string): Option<Database.Entry> {
    match (SplitSecond(line, "IP: "), SplitSecond(line, "URL: "), AfterLast(line, "Time: "))
    case (Some(a), Some(b), Some(c)) => Fields(a, b, c)
    case _ => None
  }

  /** A line either parser reads holds all three markers. */
  lemma ParsedLineHasMarkers(line: string)
    ensures ParseLineAsWritten(line).Some? ==> Contains(line, "IP: ") && Contains(line, "URL: ") && Contains(line, "Time: ")
    ensures ParseLine(line).Some? ==> Contains(line, "IP: ") && Contains(line, "URL: ") && Contains(line, "Time: ")
  {
    SplitSecondNone(line, "IP: ");
    SplitSecondNone(line, "URL: ");
    SplitSecondNone(line, "Time: ");
  }

  /** The line the web front end appends for one request. */
  function ProducerLine(ip: string, url: string, t: nat): string {
    "IP: " + ip + ", URL: " + url + ", Time: " + NatToString(t) + "\n"
  }

  // ---------------------------------------------------------------------------
  // Round trip of the wire format

  /** One character that differs from the pattern rules out an occurrence. */
  lemma Mismatch(s: string, pat: string, j: nat, m: nat)
    requires m < |pat| && (j + m < |s| ==> s[j + m] != pat[m])
    ensures !IsAt(s, pat, j)
  {
    if j + |pat| <= |s| {
      assert s[j..j + |pat|][m] == s[j + m];
    }
  }

  /** A pattern with a character the text lacks does not occur in it. */
  lemma NoCharNoPattern(x: string, pat: string, m: nat)
    requires m < |pat| && pat[m] !in x
    ensures !Contains(x, pat)
  {
    forall i: nat | i <= |x| ensures !IsAt(x, pat, i) {
      if i + m < |x| {
        assert x[i + m] in x;
      }
      Mismatch(x, pat, i, m);
    }
  }

  /** The field before a comma survives `split(sep)[...]` followed by `split(",")[0]`
      when neither it nor the separator can hide the comma. */
  lemma FieldBeforeComma(x: string, y: string, sep: string)
    requires sep != [] && ',' !in sep && ',' !in x
    requires !Contains(x, sep)
    ensures SplitHead(SplitHead(x + [','] + y, sep), ",") == x
  {
    var s := x + [','] + y;
    forall j: nat | j <= |x| ensures !IsAt(s, sep, j) {
      if j + |sep| <= |x| {
        assert s[j..j + |sep|] == x[j..j + |sep|];
        assert !IsAt(x, sep, j);
      } else {
        assert s[|x|] == ',';
        assert sep[|x| - j] in sep;
        Mismatch(s, sep, j, |x| - j);
      }
    }
    var seg := SplitHead(s, sep);
    assert |seg| > |x| && seg[..|x|] == x && seg[|x|] == ',';
    assert IsAt(seg, ",", |x|) by {
      assert seg[|x|..|x| + 1] == [seg[|x|]];
    }
    forall j: nat | j < |x| ensures !IsAt(seg, ",", j) {
      assert seg[j] == x[j] && x[j] in x;
      Mismatch(seg, ",", j, 0);
    }
    FindSome(seg, ",", |x|);
  }

  /** The pieces of a line `IP: <ip>, URL: <url>, Time: <time>\n`, as slices
      at the separators' offsets. */
  predicate Layout(line: string, ip: string, url: string, time: string) {
    var c1 := 4 + |ip|;
    var c2 := c1 + 7 + |url|;
    && |line| == c2 + 8 + |time| + 1
    && line[..4] == "IP: "
    && line[4..] == ip + [','] + (" URL: " + url + ", Time: " + time + "\n")
    && line[c1..c1 + 7] == ", URL: "
    && line[c1 + 7..] == url + [','] + (" Time: " + time + "\n")
    && line[c2..] == ", Time: " + time + "\n"
    && line[c2 + 8..] == time + "\n"
  }

  lemma Halves(a: string, b: string)
    ensures (a + b)[..|a|] == a && (a + b)[|a|..] == b
  {
  }

  lemma ProducerLineLayout(ip: string, url: string, t: nat)
    ensures Layout(ProducerLine(ip, url, t), ip, url, NatToString(t))
  {
    LineLayout(ip, url, NatToString(t));
  }

  lemma LineLayout(ip: string, url: string, time: string)
    ensures Layout("IP: " + ip + ", URL: " + url + ", Time: " + time + "\n", ip, url, time)
  {
    LayoutFront(ip, url, time);
    LayoutMiddle(ip, url, time);
    LayoutBack(ip, url, time);
  }

  lemma LayoutFront(ip: string, url: string, time: string)
    ensures var line := "IP: " + ip + ", URL: " + url + ", Time: " + time + "\n";
      line[..4] == "IP: " && line[4..] == ip + [','] + (" URL: " + url + ", Time: " + time + "\n")
  {
    var line := "IP: " + ip + ", URL: " + url + ", Time: " + time + "\n";
    var tail0 := ", URL: " + url + ", Time: " + time + "\n";
    assert line == "IP: " + (ip + tail0);
    Halves("IP: ", ip + tail0);
    assert ", URL: " == [','] + " URL: ";
  }

  lemma LayoutMiddle(ip: string, url: string, time: string)
    ensures var line := "IP: " + ip + ", URL: " + url + ", Time: " + time + "\n";
      var c1 := 4 + |ip|;
      line[c1..c1 + 7] == ", URL: " && line[c1 + 7..] == url + [','] + (" Time: " + time + "\n")
  {
    MiddleOf("IP: " + ip, ", URL: ", url, ", Time: ", time, "\n");
    assert ", Time: " == [','] + " Time: ";
    Regroup(url, [','], " Time: ", time, "\n");
  }

  /** The separator after the head, and everything after it, of a six-piece text. */
  lemma MiddleOf(head: string, sep: string, a: string, b: string, c: string, d: string)
    ensures var s := head + sep + a + b + c + d;
      s[|head|..|head| + |sep|] == sep && s[|head| + |sep|..] == a + b + c + d
  {
    var s := head + sep + a + b + c + d;
    var rest := a + b + c + d;
    assert s == head + (sep + rest);
    Halves(head, sep + rest);
    Halves(sep, rest);
  }

  lemma Regroup(a: string, x: string, y: string, b: string, c: string)
    ensures a + (x + y) + b + c == a + x + (y + b + c)
  {
  }

  lemma LayoutBack(ip: string, url: string, time: string)
    ensures var line := "IP: " + ip + ", URL: " + url + ", Time: " + time + "\n";
      var c2 := 4 + |ip| + 7 + |url|;
      line[c2..] == ", Time: " + time + "\n" && line[c2 + 8..] == time + "\n"
  {
    var line := "IP: " + ip + ", URL: " + url + ", Time: " + time + "\n";
    var end := time + "\n";
    assert line == ("IP: " + ip + ", URL: " + url) + (", Time: " + end);
    Halves("IP: " + ip + ", URL: " + url, ", Time: " + end);
    Halves(", Time: ", end);
  }

  /** The `URL: ` marker of such a line is the one after the address. */
  lemma FirstUrlMarker(line: string, ip: string, url: string, time: string)
    requires Layout(line, ip, url, time)
    requires ',' !in ip && ' ' !in ip
    ensures Find(line, "URL: ", 0) == Some(4 + |ip| + 2)
  {
    var c1 := 4 + |ip|;
    assert IsAt(line, "URL: ", c1 + 2) by {
      assert line[c1 + 2..c1 + 7] == line[c1..c1 + 7][2..];
    }
    forall j: nat | j < c1 + 2 ensures !IsAt(line, "URL: ", j) {
      if j + 5 <= c1 {
        assert line[j + 4] == line[4..][j] == ip[j];
        assert ip[j] in ip;
        Mismatch(line, "URL: ", j, 4);
      } else if j <= c1 {
        assert line[c1] == line[c1..c1 + 7][0] == ',';
        Mismatch(line, "URL: ", j, c1 - j);
      } else {
        assert line[j] == line[c1..c1 + 7][1] == ' ';
        Mismatch(line, "URL: ", j, 0);
      }
    }
    FindSome(line, "URL: ", c1 + 2);
  }

  /** No `Time: ` starts within `IP: <ip>, URL: `. */
  lemma NoTimeMarkerInAddress(line: string, ip: string, url: string, time: string, j: nat)
    requires Layout(line, ip, url, time)
    requires ',' !in ip && ' ' !in ip && j < 4 + |ip| + 7
    ensures !IsAt(line, "Time: ", j)
  {
    var c1 := 4 + |ip|;
    if j + 6 <= c1 {
      assert line[j + 5] == line[4..][j + 1] == ip[j + 1];
      assert ip[j + 1] in ip;
      Mismatch(line, "Time: ", j, 5);
    } else if j <= c1 {
      assert line[c1] == line[c1..c1 + 7][0] == ',';
      Mismatch(line, "Time: ", j, c1 - j);
    } else {
      assert line[j] == line[c1..c1 + 7][j - c1];
      Mismatch(line, "Time: ", j, 0);
    }
  }

  /** No `Time: ` starts within `<url>, ` when the URL has none. */
  lemma NoTimeMarkerInUrl(line: string, ip: string, url: string, time: string, j: nat)
    requires Layout(line, ip, url, time)
    requires !Contains(url, "Time: ")
    requires 4 + |ip| + 7 <= j < 4 + |ip| + 7 + |url| + 2
    ensures !IsAt(line, "Time: ", j)
  {
    var c1 := 4 + |ip|;
    var c2 := c1 + 7 + |url|;
    if j + 6 <= c2 {
      var u := j - c1 - 7;
      assert url[u..u + 6] == line[c1 + 7..][u..u + 6] == line[j..j + 6];
      assert !IsAt(url, "Time: ", u);
    } else if j <= c2 {
      assert line[c2] == line[c2..][0] == ',';
      Mismatch(line, "Time: ", j, c2 - j);
    } else {
      assert line[j] == line[c2..][1] == ' ';
      Mismatch(line, "Time: ", j, 0);
    }
  }

  /** The first `Time: ` of such a line is its separator when the URL has none. */
  lemma FirstTimeMarker(line: string, ip: string, url: string, time: string)
    requires Layout(line, ip, url, time)
    requires ',' !in ip && ' ' !in ip && !Contains(url, "Time: ")
    ensures Find(line, "Time: ", 0) == Some(4 + |ip| + 7 + |url| + 2)
  {
    var c2 := 4 + |ip| + 7 + |url|;
    TimeSeparatorAt(line, c2, time);
    NoTimeMarkerBeforeSeparator(line, ip, url, time);
    FindSome(line, "Time: ", c2 + 2);
  }

  lemma NoTimeMarkerBeforeSeparator(line: string, ip: string, url: string, time: string)
    requires Layout(line, ip, url, time)
    requires ',' !in ip && ' ' !in ip && !Contains(url, "Time: ")
    ensures forall j: nat :: j < 4 + |ip| + 7 + |url| + 2 ==> !IsAt(line, "Time: ", j)
  {
    forall j: nat | j < 4 + |ip| + 7 + |url| + 2 ensures !IsAt(line, "Time: ", j) {
      if j < 4 + |ip| + 7 {
        NoTimeMarkerInAddress(line, ip, url, time, j);
      } else {
        NoTimeMarkerInUrl(line, ip, url, time, j);
      }
    }
  }

  /** The address and URL fields of such a line. */
  lemma IpAndUrlFields(line: string, ip: string, url: string, time: string)
    requires Layout(line, ip, url, time)
    requires ',' !in ip && ' ' !in ip && ',' !in url
    requires !Contains(url, "URL: ")
    ensures SplitSecond(line, "IP: ").Some? && SplitHead(SplitSecond(line, "IP: ").value, ",") == ip
    ensures SplitSecond(line, "URL: ").Some? && SplitHead(SplitSecond(line, "URL: ").value, ",") == url
  {
    IpField(line, ip, url, time);
    UrlField(line, ip, url, time);
  }

  lemma IpField(line: string, ip: string, url: string, time: string)
    requires Layout(line, ip, url, time)
    requires ',' !in ip && ' ' !in ip
    ensures SplitSecond(line, "IP: ").Some? && SplitHead(SplitSecond(line, "IP: ").value, ",") == ip
  {
    assert IsAt(line, "IP: ", 0);
    FindSome(line, "IP: ", 0);
    SplitSecondAt(line, "IP: ", 0);
    NoCharNoPattern(ip, "IP: ", 3);
    FieldBeforeComma(ip, " URL: " + url + ", Time: " + time + "\n", "IP: ");
  }

  lemma UrlField(line: string, ip: string, url: string, time: string)
    requires Layout(line, ip, url, time)
    requires ',' !in ip && ' ' !in ip && ',' !in url
    requires !Contains(url, "URL: ")
    ensures SplitSecond(line, "URL: ").Some? && SplitHead(SplitSecond(line, "URL: ").value, ",") == url
  {
    FirstUrlMarker(line, ip, url, time);
    SplitSecondAt(line, "URL: ", 4 + |ip| + 2);
    FieldBeforeComma(url, " Time: " + time + "\n", "URL: ");
  }

  lemma StripLine(digits: string)
    requires digits != [] && AllDigits(digits)
    ensures Strip(digits + "\n") == digits
  {
    var s := digits + "\n";
    assert !IsSpace(s[0]) by {
      assert s[0] == digits[0];
    }
    assert s[..|s| - 1] == digits;
    assert !IsSpace(digits[|digits| - 1]);
    assert StripRight(s) == StripRight(digits) == digits;
  }

  lemma {:induction false} FindLastSome(s: string, pat: string, upto: nat, k: nat)
    requires k <= upto && IsAt(s, pat, k)
    requires forall j: nat :: k < j <= upto ==> !IsAt(s, pat, j)
    ensures FindLast(s, pat, upto) == Some(k)
    decreases upto
  {
    if upto > k {
      FindLastSome(s, pat, upto - 1, k);
    }
  }

  /** The text after the last `Time: ` of a line ending in `, Time: <time>\n` is
      the time and the newline, whatever comes before. */
  lemma LastTimeMarker(line: string, c2: nat, time: string)
    requires AllDigits(time)
    requires |line| == c2 + 8 + |time| + 1 && line[c2..] == ", Time: " + time + "\n"
    ensures AfterLast(line, "Time: ") == Some(time + "\n")
  {
    TimeSeparatorAt(line, c2, time);
    forall j: nat | c2 + 2 < j <= |line| - 6 ensures !IsAt(line, "Time: ", j) {
      NoTimeMarkerAfterSeparator(line, c2, time, j);
    }
    FindLastSome(line, "Time: ", |line| - 6, c2 + 2);
  }

  /** No `Time: ` starts after the separator's `T`: the rest is `ime: `, digits and `\n`. */
  lemma NoTimeMarkerAfterSeparator(line: string, c2: nat, time: string, j: nat)
    requires AllDigits(time)
    requires |line| == c2 + 8 + |time| + 1 && line[c2..] == ", Time: " + time + "\n"
    requires c2 + 2 < j
    ensures !IsAt(line, "Time: ", j)
  {
    if j < c2 + 8 {
      assert line[j] == line[c2..][j - c2];
    } else if j < c2 + 8 + |time| {
      assert line[j] == line[c2..][j - c2] == time[j - c2 - 8];
      assert IsDigit(time[j - c2 - 8]);
    } else if j < |line| {
      assert line[j] == line[c2..][j - c2] == '\n';
    }
    Mismatch(line, "Time: ", j, 0);
  }

  /** Round trip: the corrected parser reads back every line the front end
      writes, provided the address has no comma or space and the URL has no
      comma and no `URL: `. */
  lemma ParseProducerLine(ip: string, url: string, t: nat)
    requires ',' !in ip && ' ' !in ip && ',' !in url
    requires !Contains(url, "URL: ")
    ensures ParseLine(ProducerLine(ip, url, t)) == Some(Database.Entry(ip, t, url))
  {
    ProducerLineLayout(ip, url, t);
    ParseNatToString(t);
    ParseLaidOutLine(ProducerLine(ip, url, t), ip, url, NatToString(t), t);
  }

  lemma ParseLaidOutLine(line: string, ip: string, url: string, time: string, t: nat)
    requires Layout(line, ip, url, time) && ParseNat(time) == Some(t)
    requires ',' !in ip && ' ' !in ip && ',' !in url
    requires !Contains(url, "URL: ")
    ensures ParseLine(line) == Some(Database.Entry(ip, t, url))
  {
    IpAndUrlFields(line, ip, url, time);
    LastTimeMarker(line, 4 + |ip| + 7 + |url|, time);
    StripLine(time);
  }

  /** The same round trip for the parser as written, which in addition needs
      the URL to be free of `Time: `. */
  lemma ParseProducerLineAsWritten(ip: string, url: string, t: nat)
    requires ',' !in ip && ' ' !in ip && ',' !in url
    requires !Contains(url, "URL: ") && !Contains(url, "Time: ")
    ensures ParseLineAsWritten(ProducerLine(ip, url, t)) == Some(Database.Entry(ip, t, url))
  {
    var line, time := ProducerLine(ip, url, t), NatToString(t);
    ProducerLineLayout(ip, url, t);
    ParseNatToString(t);
    FirstTimeMarker(line, ip, url, time);
    ParseLaidOutLineAsWritten(line, ip, url, time, t);
  }

  lemma ParseLaidOutLineAsWritten(line: string, ip: string, url: string, time: string, t: nat)
    requires Layout(line, ip, url, time) && ParseNat(time) == Some(t)
    requires ',' !in ip && ' ' !in ip && ',' !in url
    requires !Contains(url, "URL: ")
    requires Find(line, "Time: ", 0) == Some(4 + |ip| + 7 + |url| + 2)
    ensures ParseLineAsWritten(line) == Some(Database.Entry(ip, t, url))
  {
    TimeFieldOfLayout(line, ip, url, time);
    IpAndUrlFields(line, ip, url, time);
    StripLine(time);
    var a, b := SplitSecond(line, "IP: ").value, SplitSecond(line, "URL: ").value;
    FieldsOfLine(a, b, time, ip, url, t);
    AsWrittenOfFields(line, a, b, time + "\n");
  }

  /** The time field of such a line, when its first `Time: ` is the separator. */
  lemma TimeFieldOfLayout(line: string, ip: string, url: string, time: string)
    requires Layout(line, ip, url, time) && AllDigits(time)
    requires Find(line, "Time: ", 0) == Some(4 + |ip| + 7 + |url| + 2)
    ensures SplitSecond(line, "Time: ") == Some(time + "\n")
  {
    FirstTimeField(line, 4 + |ip| + 7 + |url|, time);
  }

  lemma AsWrittenOfFields(line: string, a: string, b: string, c: string)
    requires SplitSecond(line, "IP: ") == Some(a) && SplitSecond(line, "URL: ") == Some(b)
    requires SplitSecond(line, "Time: ") == Some(c)
    ensures ParseLineAsWritten(line) == Fields(a, b, c)
  {
  }

  /** The entry built from fields whose heads are the address and the URL and
      whose time text is a numeral and a newline. */
  lemma FieldsOfLine(a: string, b: string, time: string, ip: string, url: string, t: nat)
    requires SplitHead(a, ",") == ip && SplitHead(b, ",") == url
    requires ParseNat(time) == Some(t) && Strip(time + "\n") == time
    ensures Fields(a, b, time + "\n") == Some(Database.Entry(ip, t, url))
  {
  }

  /** `split("Time: ")[1]` of a line whose first `Time: ` is the separator
      before the time is the time and the newline. */
  lemma FirstTimeField(line: string, c2: nat, time: string)
    requires AllDigits(time)
    requires |line| == c2 + 8 + |time| + 1 && line[c2..] == ", Time: " + time + "\n"
    requires Find(line, "Time: ", 0) == Some(c2 + 2)
    ensures SplitSecond(line, "Time: ") == Some(time + "\n")
  {
    var rest := time + "\n";
    SplitSecondAt(line, "Time: ", c2 + 2);
    TimeSeparatorAt(line, c2, time);
    NoTimeMarkerInNumeral(time);
    SplitHeadWhole(rest, "Time: ");
  }

  /** Where a line ends in `, Time: <time>\n`, its `Time: ` starts two places in
      and the time and the newline follow it. */
  lemma TimeSeparatorAt(line: string, c2: nat, time: string)
    requires |line| == c2 + 8 + |time| + 1 && line[c2..] == ", Time: " + time + "\n"
    ensures IsAt(line, "Time: ", c2 + 2) && line[c2 + 8..] == time + "\n"
  {
    var tail := ", Time: " + time + "\n";
    assert line[c2 + 2..c2 + 8] == tail[2..8];
    assert line[c2 + 8..] == tail[8..];
  }

  /** A numeral and a newline hold no `Time: `. */
  lemma NoTimeMarkerInNumeral(time: string)
    requires AllDigits(time)
    ensures !Contains(time + "\n", "Time: ")
  {
    var rest := time + "\n";
    forall j: nat ensures !IsAt(rest, "Time: ", j) {
      if j < |time| {
        assert rest[j] == time[j] && IsDigit(time[j]);
      }
      Mismatch(rest, "Time: ", j, 0);
    }
  }

  /** A request for the path `/Time: 5` is logged by the front end in the
      usual format, its URL being `request.full_path`, which ends in `?`; yet
      the parser as written drops it: the time text it reads is `5?, `. */
  lemma TimeInUrlIsDropped()
    ensures ParseLineAsWritten(ProducerLine("1.2.3.4", "/Time: 5?", 7)) == None
  {
    ExampleLine();
    TimeFieldOfExample();
    NonSpaceSurvivesStrip("5?, ", 1);
    assert !IsDigit('?');
    BadTimeDropsLine("IP: 1.2.3.4, URL: /Time: 5?, Time: 7\n", "5?, ");
  }

  /** The corrected parser reads the same line back. */
  lemma TimeInUrlIsRead()
    ensures ParseLine(ProducerLine("1.2.3.4", "/Time: 5?", 7)) == Some(Database.Entry("1.2.3.4", 7, "/Time: 5?"))
  {
    NoCharNoPattern("/Time: 5?", "URL: ", 0);
    ParseProducerLine("1.2.3.4", "/Time: 5?", 7);
  }

  /** A line whose time text is not a number is dropped by the parser as written. */
  lemma BadTimeDropsLine(line: string, timeText: string)
    requires SplitSecond(line, "Time: ") == Some(timeText)
    requires !AllDigits(Strip(timeText))
    ensures ParseLineAsWritten(line) == None
  {
  }

  lemma ExampleLine()
    ensures ProducerLine("1.2.3.4", "/Time: 5?", 7) == "IP: 1.2.3.4, URL: /Time: 5?, Time: 7\n"
  {
    assert NatToString(7) == "7" by {
      assert DigitChar(7) == '7';
    }
  }

  /** The time text the parser as written reads from the example line. */
  lemma TimeFieldOfExample()
    ensures SplitSecond("IP: 1.2.3.4, URL: /Time: 5?, Time: 7\n", "Time: ") == Some("5?, ")
  {
    var line := "IP: 1.2.3.4, URL: /Time: 5?, Time: 7\n";
    FirstTimeOfExample();
    SplitSecondAt(line, "Time: ", 19);
    ExampleRest();
    SecondTimeOfExample();
  }

  /** `strip()` keeps every character that is not whitespace. */
  lemma NonSpaceSurvivesStrip(s: string, k: nat)
    requires k < |s| && !IsSpace(s[k])
    ensures s[k] in Strip(s)
  {
    var r := Strip(s);
    var i, j := StripIsSlice(s);
    assert r[k - i] == s[k];
  }

  lemma FirstTimeOfExample()
    ensures Find("IP: 1.2.3.4, URL: /Time: 5?, Time: 7\n", "Time: ", 0) == Some(19)
  {
    var line := "IP: 1.2.3.4, URL: /Time: 5?, Time: 7\n";
    assert IsAt(line, "Time: ", 19);
    forall j: nat | j < 19 ensures !IsAt(line, "Time: ", j) {
      Mismatch(line, "Time: ", j, 0);
    }
    FindSome(line, "Time: ", 19);
  }

  lemma ExampleRest()
    ensures "IP: 1.2.3.4, URL: /Time: 5?, Time: 7\n"[25..] == "5?, Time: 7\n"
  {
  }

  lemma SecondTimeOfExample()
    ensures SplitHead("5?, Time: 7\n", "Time: ") == "5?, "
  {
    var rest := "5?, Time: 7\n";
    assert IsAt(rest, "Time: ", 4);
    forall j: nat | j < 4 ensures !IsAt(rest, "Time: ", j) {
      Mismatch(rest, "Time: ", j, 0);
    }
    FindSome(rest, "Time: ", 4);
  }

  // ---------------------------------------------------------------------------
  // A batch of lines

  /** A line parser: `ParseLineAsWritten` in the program, `ParseLine` corrected. */
  type Parser = string -> Option<Database.Entry>

  /** The parse loop's result: every line that parses, in line order; the others are dropped. */
  function ParseBatch(parse: Parser, lines: seq<string>): (es: seq<Database.Entry>)
    ensures |es| <= |lines|
  {
    if lines == [] then []
    else
      var front := ParseBatch(parse, lines[..|lines| - 1]);
      match parse(lines[|lines| - 1])
      case None => front
      case Some(e) => front + [e]
  }

  /** One more line: the batch so far, plus that line's entry when it parses. */
  lemma ParseBatchStep(parse: Parser, lines: seq<string>, i: nat)
    requires i < |lines|
    ensures ParseBatch(parse, lines[..i + 1]) == match parse(lines[i])
                                               case None => ParseBatch(parse, lines[..i])
                                               case Some(e) => ParseBatch(parse, lines[..i]) + [e]
  {
    var l := lines[..i + 1];
    assert l[..|l| - 1] == lines[..i] && l[|l| - 1] == lines[i];
  }

  /** Parsing is line by line: a batch parses to the parse of its two halves, so a
      malformed line costs only itself. */
  lemma {:induction false} ParseBatchAppend(parse: Parser, a: seq<string>, b: seq<string>)
    ensures ParseBatch(parse, a + b) == ParseBatch(parse, a) + ParseBatch(parse, b)
    decreases |b|
  {
    if b == [] {
      assert a + b == a;
    } else {
      var front, x := b[..|b| - 1], b[|b| - 1];
      assert a + b == (a + front) + [x];
      assert b == front + [x];
      ParseBatchSnoc(parse, a + front, x);
      ParseBatchSnoc(parse, front, x);
      ParseBatchAppend(parse, a, front);
    }
  }

  lemma ParseBatchSnoc(parse: Parser, lines: seq<string>, x: string)
    ensures ParseBatch(parse, lines + [x]) == ParseBatch(parse, lines) + ParseBatch(parse, [x])
  {
    assert (lines + [x])[..|lines|] == lines;
    assert [x][..0] == [];
  }

  /** A line that does not parse is dropped and the rest of the batch is kept. */
  lemma MalformedLineSkipped(parse: Parser, a: seq<string>, bad: string, b: seq<string>)
    requires parse(bad).None?
    ensures ParseBatch(parse, a + [bad] + b) == ParseBatch(parse, a) + ParseBatch(parse, b)
  {
    ParseBatchAppend(parse, a + [bad], b);
    ParseBatchAppend(parse, a, [bad]);
    assert [bad][..0] == [];
  }

  /** Every entry of a batch is the parse of one of its lines. */
  lemma {:induction false} ParseBatchSound(parse: Parser, lines: seq<string>, e: Database.Entry)
    requires e in ParseBatch(parse, lines)
    ensures exists i :: 0 <= i < |lines| && parse(lines[i]) == Some(e)
    decreases |lines|
  {
    var front := lines[..|lines| - 1];
    if e in ParseBatch(parse, front) {
      ParseBatchSound(parse, front, e);
      var i :| 0 <= i < |front| && parse(front[i]) == Some(e);
      assert lines[i] == front[i];
    } else {
      assert parse(lines[|lines| - 1]) == Some(e);
    }
  }

  /** A batch of the one line the front end writes for a path holding
      `Time: `: the loop as written keeps nothing, the corrected loop keeps
      the request. */
  lemma TimeInUrlBatch()
    ensures ParseBatch(ParseLineAsWritten, [ProducerLine("1.2.3.4", "/Time: 5?", 7)]) == []
    ensures ParseBatch(ParseLine, [ProducerLine("1.2.3.4", "/Time: 5?", 7)]) == [Database.Entry("1.2.3.4", 7, "/Time: 5?")]
  {
    TimeInUrlIsDropped();
    TimeInUrlIsRead();
    assert [ProducerLine("1.2.3.4", "/Time: 5?", 7)][..0] == [];
  }
}
