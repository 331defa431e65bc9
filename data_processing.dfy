/** Preparing a CIC-DDoS style flow table for training (data_processing.py):
    column names are normalised, each canonical field is found through a list
    of candidate names with fallbacks, and every input row becomes one
    `src_ip, request_rate, unique_urls_proxy, label` row. Reading and combining
    the CSV files is not modelled: the model starts from the table as read. */
module DataProcessing {
  import opened Common
  import opened Text
  import Model

  /** A table as read from CSV: a header and rows of cell text. */
  datatype Table = Table(columns: seq<string>, rows: seq<seq<string>>)

  predicate Rectangular(t: Table) {
    forall i :: 0 <= i < |t.rows| ==> |t.rows[i]| == |t.columns|
  }

  /** `pd.to_numeric(..., errors="coerce")` on one cell: the number the text
      denotes, or `None` where pandas would produce NaN. */
  type Numeric = string -> Option<real>

  // ---------------------------------------------------------------------------
  // Column names
  // ---------------------------------------------------------------------------

  /** A name `Normalize` leaves alone: no surrounding whitespace, no space,
      no upper-case ASCII letter. */
  predicate Canonical(s: string) {
    (s == [] || (!IsSpace(s[0]) && !IsSpace(s[|s| - 1])))
    && forall k :: 0 <= k < |s| ==> s[k] != ' ' && !('A' <= s[k] <= 'Z')
  }

  /** `c.strip().lower().replace(" ", "_")`. */
  function Normalize(c: string): (n: string)
    ensures |n| <= |c|
    ensures forall k :: 0 <= k < |n| ==> n[k] != ' '
  {
    SpacesToUnderscores(Lower(Strip(c)))
  }

  lemma StripKeepsTrimmed(s: string)
    requires s == [] || (!IsSpace(s[0]) && !IsSpace(s[|s| - 1]))
    ensures Strip(s) == s
  {
  }

  /** Every normalised name is canonical. */
  lemma NormalizeIsCanonical(c: string)
    ensures Canonical(Normalize(c))
  {
    TrimmedNormalFormIsCanonical(Strip(c));
  }

  lemma TrimmedNormalFormIsCanonical(s: string)
    requires s == [] || (!IsSpace(s[0]) && !IsSpace(s[|s| - 1]))
    ensures Canonical(SpacesToUnderscores(Lower(s)))
  {
    var l := Lower(s);
    var n := SpacesToUnderscores(l);
    forall k | 0 <= k < |n| ensures n[k] == NormalChar(s[k]) {
      assert l[k] == LowerChar(s[k]);
    }
    if n != [] {
      NormalCharKeepsNonSpace(s[0]);
      NormalCharKeepsNonSpace(s[|s| - 1]);
    }
  }

  /** What normalisation makes of one character of the stripped name. */
  function NormalChar(c: char): (d: char)
    ensures d != ' ' && !('A' <= d <= 'Z')
  {
    if LowerChar(c) == ' ' then '_' else LowerChar(c)
  }

  lemma NormalCharKeepsNonSpace(c: char)
    requires !IsSpace(c)
    ensures !IsSpace(NormalChar(c))
  {
    LowerKeepsSpace(c);
  }

  /** A canonical name is its own normal form. */
  lemma CanonicalIsFixed(s: string)
    requires Canonical(s)
    ensures Normalize(s) == s
  {
    StripKeepsTrimmed(s);
    var l := Lower(s);
    assert l == s;
    assert SpacesToUnderscores(l) == s;
  }

  /** The names `Normalize` returns are exactly the canonical ones. */
  lemma FixedIffCanonical(s: string)
    ensures Normalize(s) == s <==> Canonical(s)
  {
    if Normalize(s) == s {
      NormalizeIsCanonical(s);
    } else if Canonical(s) {
      CanonicalIsFixed(s);
    }
  }

  /** Normalising twice is normalising once. */
  lemma NormalizeIdempotent(c: string)
    ensures Normalize(Normalize(c)) == Normalize(c)
  {
    NormalizeIsCanonical(c);
    CanonicalIsFixed(Normalize(c));
  }

  /** Whitespace around a name does not change its normal form. */
  lemma NormalizeIgnoresSurroundingSpace(c: string)
    ensures Normalize(Strip(c)) == Normalize(c)
  {
    var s := Strip(c);
    StripKeepsTrimmed(s);
    assert Strip(s) == s;
  }

  /** Letter case does not change a name's normal form (so ` Source IP`
      and `source ip` name the same column). */
  lemma NormalizeIgnoresCase(c: string)
    ensures Normalize(Lower(c)) == Normalize(c)
  {
    StripLower(c);
    LowerTwice(Strip(c));
  }

  lemma LowerKeepsSpace(c: char)
    ensures IsSpace(LowerChar(c)) == IsSpace(c)
  {
  }

  lemma LowerTwice(s: string)
    ensures Lower(Lower(s)) == Lower(s)
  {
  }

  /** Stripping and lowering commute. */
  lemma StripLower(s: string)
    ensures Strip(Lower(s)) == Lower(Strip(s))
  {
    StripLeftLower(s);
    StripRightLower(StripLeft(s));
  }

  lemma {:induction false} StripLeftLower(s: string)
    ensures StripLeft(Lower(s)) == Lower(StripLeft(s))
    decreases |s|
  {
    if s != [] {
      LowerKeepsSpace(s[0]);
      assert Lower(s)[1..] == Lower(s[1..]);
      StripLeftLower(s[1..]);
    }
  }

  lemma {:induction false} StripRightLower(s: string)
    ensures StripRight(Lower(s)) == Lower(StripRight(s))
    decreases |s|
  {
    if s != [] {
      var l := Lower(s);
      LowerKeepsSpace(s[|s| - 1]);
      assert l[..|l| - 1] == Lower(s[..|s| - 1]);
      StripRightLower(s[..|s| - 1]);
    }
  }

  /** `_normalize_columns`: every column renamed to its normal form. */
  function NormalizeColumns(cols: seq<string>): (r: seq<string>)
    ensures |r| == |cols|
    ensures forall i :: 0 <= i < |r| ==> r[i] == Normalize(cols[i])
  {
    seq(|cols|, i requires 0 <= i < |cols| => Normalize(cols[i]))
  }

  /** Renaming the columns of an already normalised table changes nothing. */
  lemma NormalizeColumnsIdempotent(cols: seq<string>)
    ensures NormalizeColumns(NormalizeColumns(cols)) == NormalizeColumns(cols)
  {
    var once := NormalizeColumns(cols);
    forall i | 0 <= i < |once| ensures Normalize(once[i]) == once[i] {
      NormalizeIdempotent(cols[i]);
    }
  }

  /** Position of the first key, from position `from` on, that is a column. */
  function FirstHitFrom(cols: seq<string>, keys: seq<string>, from: nat): (r: Option<nat>)
    requires from <= |keys|
    ensures r.Some? ==> from <= r.value < |keys| && keys[r.value] in cols
    ensures r.Some? ==> forall j :: from <= j < r.value ==> keys[j] !in cols
    ensures r.None? ==> forall j :: from <= j < |keys| ==> keys[j] !in cols
    decreases |keys| - from
  {
    if from == |keys| then None
    else if keys[from] in cols then Some(from)
    else FirstHitFrom(cols, keys, from + 1)
  }

  /** Position of the first candidate, in list order, whose normal form is a column. */
  function FirstHit(cols: seq<string>, candidates: seq<string>): (r: Option<nat>)
    ensures r.Some? ==> r.value < |candidates| && Normalize(candidates[r.value]) in cols
    ensures r.Some? ==> forall j :: 0 <= j < r.value ==> Normalize(candidates[j]) !in cols
    ensures r.None? <==> forall i :: 0 <= i < |candidates| ==> Normalize(candidates[i]) !in cols
  {
    FirstHitFrom(cols, NormalizeColumns(candidates), 0)
  }

  /** `_find_first_existing`: the normal form of the first candidate, in list
      order, whose normal form is a column. */
  function FirstExisting(cols: seq<string>, candidates: seq<string>): (r: Option<string>)
    ensures r.Some? ==> r.value in cols
  {
    var keys := NormalizeColumns(candidates);
    match FirstHitFrom(cols, keys, 0)
    case None => None
    case Some(k) => Some(keys[k])
  }

  /** The name found is the normal form of the first candidate that names a column. */
  lemma FirstExistingIsFirstHit(cols: seq<string>, candidates: seq<string>)
    ensures FirstExisting(cols, candidates).None? <==> FirstHit(cols, candidates).None?
    ensures FirstExisting(cols, candidates).Some? ==>
      FirstExisting(cols, candidates).value == Normalize(candidates[FirstHit(cols, candidates).value])
  {
  }

  /** The search loop of `_find_first_existing`, with its early return. */
  method FindFirstExisting(cols: seq<string>, candidates: seq<string>) returns (r: Option<string>)
    ensures r == FirstExisting(cols, candidates)
  {
    ghost var keys := NormalizeColumns(candidates);
    var i := 0;
    while i < |candidates|
      invariant i <= |candidates|
      invariant FirstHitFrom(cols, keys, i) == FirstHitFrom(cols, keys, 0)
    {
      var key := Normalize(candidates[i]);
      assert key == keys[i];
      if key in cols {
        return Some(key);
      }
      i := i + 1;
    }
    r := None;
  }

  // ---------------------------------------------------------------------------
  // Candidate names
  // ---------------------------------------------------------------------------

  const SourceCandidates: seq<string> := ["source_ip", "src_ip", "src ip", "sip", "flow_source_ip"]
  const RateCandidates: seq<string> := ["flow_packets/s", "flow_packets_s", "flow_packets_per_second",
                                        "packets_per_second", "flow_packets_ps", "flow_packetsps", "flow_packets"]
  const UniqueCandidates: seq<string> := ["packet_length_variance", "unique_urls_proxy", "unique_urls",
                                          "unique_urls_count", "unique_host_count", "unique_destination_ip"]
  const LabelCandidates: seq<string> := ["label", "attack_label", "class", "traffic_type", "flow_label"]
  /** The second rung of the `request_rate` chain. */
  const PacketCandidates: seq<string> := ["total_fwd_packets", "total_backward_packets", "packets"]
  /** The second rung of the `unique_urls_proxy` chain. */
  const VarianceCandidates: seq<string> := ["packet_length_variance", "packet_length_var"]

  /** The second rung of the `unique_urls_proxy` chain is only tried when the
      first found nothing, and "packet_length_variance" heads the first list:
      so that entry of the fallback can never match, and the fallback finds
      what the rest of its list finds. */
  lemma VarianceFallbackSkipsFirst(cols: seq<string>)
    requires FirstExisting(cols, UniqueCandidates).None?
    ensures FirstExisting(cols, VarianceCandidates) == FirstExisting(cols, VarianceCandidates[1..])
  {
    var v := VarianceCandidates;
    assert v[0] == UniqueCandidates[0];
    assert Normalize(v[0]) !in cols;
    var rest := v[1..];
    var keys, restKeys := NormalizeColumns(v), NormalizeColumns(rest);
    assert keys[0] !in cols;
    assert keys[1] == restKeys[0];
    assert FirstHitFrom(cols, keys, 0) == FirstHitFrom(cols, keys, 1);
  }

  // ---------------------------------------------------------------------------
  // Columns
  // ---------------------------------------------------------------------------

  /** The `k`-th column of a table. */
  function ColumnAt(t: Table, k: nat): (col: seq<string>)
    requires Rectangular(t) && k < |t.columns|
    ensures |col| == |t.rows|
    ensures forall i :: 0 <= i < |col| ==> col[i] == t.rows[i][k]
  {
    seq(|t.rows|, i requires 0 <= i < |t.rows| => t.rows[i][k])
  }

  /** `df[name]`: the first column carrying that name. */
  function Column(t: Table, name: string): (col: seq<string>)
    requires Rectangular(t) && name in t.columns
    ensures |col| == |t.rows|
    ensures exists k :: 0 <= k < |t.columns| && t.columns[k] == name && col == ColumnAt(t, k)
  {
    var k := Model.IndexOf(t.columns, name).value;
    ColumnAt(t, k)
  }

  /** One cell through `pd.to_numeric(errors="coerce").fillna(0.0)`. */
  function ToNumber(numeric: Numeric, cell: string): (x: real)
    ensures numeric(cell).None? ==> x == 0.0
    ensures numeric(cell).Some? ==> x == numeric(cell).value
  {
    match numeric(cell)
    case None => 0.0
    case Some(v) => v
  }

  function Numbers(col: seq<string>, numeric: Numeric): (xs: seq<real>)
    ensures |xs| == |col|
    ensures forall i :: 0 <= i < |col| ==> xs[i] == ToNumber(numeric, col[i])
  {
    seq(|col|, i requires 0 <= i < |col| => ToNumber(numeric, col[i]))
  }

  /** The source address given to row `i` of a table without one. */
  function SynthesizedIp(i: nat): (ip: string)
    ensures |ip| > 7 && ip[..7] == "10.0.0."
    ensures ParseNat(ip[7..]) == Some(i % 255)
  {
    ParseNatToString(i % 255);
    var ip := "10.0.0." + NatToString(i % 255);
    assert ip[7..] == NatToString(i % 255);
    ip
  }

  /** The synthesised addresses of rows `0 .. n - 1`. */
  function SynthesizedIps(n: nat): (ips: seq<string>)
    ensures |ips| == n && forall i :: 0 <= i < n ==> ips[i] == SynthesizedIp(i)
  {
    seq(n, i requires 0 <= i < n => SynthesizedIp(i))
  }

  /** A column of `n` copies of one value. */
  function Filled<T>(n: nat, x: T): (xs: seq<T>)
    ensures |xs| == n && forall i :: 0 <= i < n ==> xs[i] == x
  {
    seq(n, _ => x)
  }

  /** Two synthesised addresses coincide exactly when the row numbers agree modulo 255. */
  lemma SynthesizedIpRepeats(i: nat, j: nat)
    ensures SynthesizedIp(i) == SynthesizedIp(j) <==> i % 255 == j % 255
  {
  }

  /** `df["src_ip"]`: the detected source column as text, otherwise synthesised. */
  function SourceColumn(df: Table): (ips: seq<string>)
    requires Rectangular(df)
    ensures |ips| == |df.rows|
    ensures FirstExisting(df.columns, SourceCandidates).None? ==>
      forall i :: 0 <= i < |ips| ==> ips[i] == SynthesizedIp(i)
  {
    match FirstExisting(df.columns, SourceCandidates)
    case Some(c) => Column(df, c)
    case None => SynthesizedIps(|df.rows|)
  }

  /** `groupby("src_ip")["src_ip"].transform("count")`: how many rows share each row's address. */
  function GroupCounts(ips: seq<string>): (counts: seq<real>)
    ensures |counts| == |ips|
    ensures forall i :: 0 <= i < |ips| ==> counts[i] == multiset(ips)[ips[i]] as real
  {
    seq(|ips|, i requires 0 <= i < |ips| => Count(ips, ips[i]) as real)
  }

  /** Every group counts at least the row it was computed for. */
  lemma GroupCountsPositive(ips: seq<string>, i: nat)
    requires i < |ips|
    ensures GroupCounts(ips)[i] >= 1.0
  {
    assert ips[i] in multiset(ips);
  }

  /** `df["request_rate"]`: a rate column, else a packet-count column, else the group counts. */
  function RateColumn(df: Table, ips: seq<string>, numeric: Numeric): (rates: seq<real>)
    requires Rectangular(df) && |ips| == |df.rows|
    ensures |rates| == |df.rows|
    ensures FirstExisting(df.columns, RateCandidates).None? && FirstExisting(df.columns, PacketCandidates).None?
      ==> rates == GroupCounts(ips)
  {
    match FirstExisting(df.columns, RateCandidates)
    case Some(c) => Numbers(Column(df, c), numeric)
    case None =>
      match FirstExisting(df.columns, PacketCandidates)
      case Some(c) => Numbers(Column(df, c), numeric)
      case None => GroupCounts(ips)
  }

  /** `df["unique_urls_proxy"]`: a unique-count column, else the packet length variance, else 0. */
  function UniqueColumn(df: Table, numeric: Numeric): (xs: seq<real>)
    requires Rectangular(df)
    ensures |xs| == |df.rows|
    ensures FirstExisting(df.columns, UniqueCandidates).None? && FirstExisting(df.columns, VarianceCandidates).None?
      ==> forall i :: 0 <= i < |xs| ==> xs[i] == 0.0
  {
    match FirstExisting(df.columns, UniqueCandidates)
    case Some(c) => Numbers(Column(df, c), numeric)
    case None =>
      match FirstExisting(df.columns, VarianceCandidates)
      case Some(c) => Numbers(Column(df, c), numeric)
      case None => Filled(|df.rows|, 0.0)
  }

  /** `df["label_raw"]`: the detected label column as text, otherwise "BENIGN" throughout. */
  function LabelTextColumn(df: Table): (texts: seq<string>)
    requires Rectangular(df)
    ensures |texts| == |df.rows|
    ensures FirstExisting(df.columns, LabelCandidates).None? ==>
      forall i :: 0 <= i < |texts| ==> texts[i] == "BENIGN"
  {
    match FirstExisting(df.columns, LabelCandidates)
    case Some(c) => Column(df, c)
    case None => Filled(|df.rows|, "BENIGN")
  }

  /** The label map: 0 for benign traffic, 1 for anything else. */
  function LabelOf(text: string): (verdict: int)
    ensures verdict == 0 || verdict == 1
    ensures verdict == 0 <==> Upper(Strip(text)) == "BENIGN"
  {
    if Upper(Strip(text)) == "BENIGN" then 0 else 1
  }

  lemma UpperFixed(s: string)
    requires forall k :: 0 <= k < |s| ==> !('a' <= s[k] <= 'z')
    ensures Upper(s) == s
  {
  }

  /** The default label text maps to 0. */
  lemma BenignIsZero()
    ensures LabelOf("BENIGN") == 0
  {
    var s := "BENIGN";
    StripKeepsTrimmed(s);
    UpperFixed(s);
    assert Upper(Strip(s)) == s;
  }

  /** Whitespace around the label text does not change the label. */
  lemma LabelOfIgnoresSurroundingSpace(text: string)
    ensures LabelOf(Strip(text)) == LabelOf(text)
  {
    var s := Strip(text);
    StripKeepsTrimmed(s);
    assert Upper(Strip(s)) == Upper(s);
  }

  /** Letter case of the label text does not change the label (`benign`
      and `Benign` are benign traffic). */
  lemma LabelOfIgnoresCase(text: string)
    ensures LabelOf(Lower(text)) == LabelOf(text)
  {
    StripLower(text);
    UpperOfLower(Strip(text));
  }

  lemma UpperOfLower(s: string)
    ensures Upper(Lower(s)) == Upper(s)
  {
    var l := Lower(s);
    forall k | 0 <= k < |s| ensures Upper(l)[k] == Upper(s)[k] {
      assert l[k] == LowerChar(s[k]);
    }
  }

  function Labels(texts: seq<string>): (labels: seq<int>)
    ensures |labels| == |texts|
    ensures forall i :: 0 <= i < |texts| ==> labels[i] == LabelOf(texts[i])
  {
    seq(|texts|, i requires 0 <= i < |texts| => LabelOf(texts[i]))
  }

  /** The rows of the output frame, column by column. */
  function Assemble(ips: seq<string>, rates: seq<real>, uniq: seq<real>, labels: seq<int>): (out: seq<Model.TrainingRow>)
    requires |rates| == |ips| && |uniq| == |ips| && |labels| == |ips|
    ensures |out| == |ips|
    ensures forall i :: 0 <= i < |ips| ==>
      out[i] == Model.TrainingRow(ips[i], rates[i], uniq[i], labels[i])
  {
    seq(|ips|, i requires 0 <= i < |ips| => Model.TrainingRow(ips[i], rates[i], uniq[i], labels[i]))
  }

  /** The `src_ip` column of the output is the one assigned. */
  lemma AssembleIps(ips: seq<string>, rates: seq<real>, uniq: seq<real>, labels: seq<int>)
    requires |rates| == |ips| && |uniq| == |ips| && |labels| == |ips|
    ensures Model.TrainingIps(Assemble(ips, rates, uniq, labels)) == ips
  {
  }

  /** The table with its column names normalised. */
  function Normalized(t: Table): (df: Table)
    ensures df.rows == t.rows && |df.columns| == |t.columns|
  {
    Table(NormalizeColumns(t.columns), t.rows)
  }

  /** What `load_and_preprocess_data` returns for a table as read. */
  function Preprocess(t: Table, numeric: Numeric): (out: seq<Model.TrainingRow>)
    requires Rectangular(t)
    ensures |out| == |t.rows|
    ensures var df := Normalized(t);
      var ips := SourceColumn(df);
      forall i :: 0 <= i < |out| ==> out[i] == Model.TrainingRow(ips[i], RateColumn(df, ips, numeric)[i],
        UniqueColumn(df, numeric)[i], LabelOf(LabelTextColumn(df)[i]))
  {
    var df := Normalized(t);
    var ips := SourceColumn(df);
    var rates, uniq, labels := RateColumn(df, ips, numeric), UniqueColumn(df, numeric), Labels(LabelTextColumn(df));
    Assemble(ips, rates, uniq, labels)
  }

  /** The `src_ip` assignment. */
  method AssignSource(df: Table, srcCol: Option<string>) returns (ips: seq<string>)
    requires Rectangular(df) && srcCol == FirstExisting(df.columns, SourceCandidates)
    ensures ips == SourceColumn(df)
  {
    if srcCol.Some? {
      ips := Column(df, srcCol.value);
    } else {
      ips := SynthesizedIps(|df.rows|);
    }
  }

  /** The `request_rate` assignment, with its two fallbacks. */
  method AssignRate(df: Table, reqCol: Option<string>, ips: seq<string>, numeric: Numeric) returns (rates: seq<real>)
    requires Rectangular(df) && |ips| == |df.rows| && reqCol == FirstExisting(df.columns, RateCandidates)
    ensures rates == RateColumn(df, ips, numeric)
  {
    if reqCol.Some? {
      rates := Numbers(Column(df, reqCol.value), numeric);
    } else {
      var packetsCol := FindFirstExisting(df.columns, PacketCandidates);
      if packetsCol.Some? {
        rates := Numbers(Column(df, packetsCol.value), numeric);
      } else {
        rates := GroupCounts(ips);
      }
    }
  }

  /** The `unique_urls_proxy` assignment, with its two fallbacks. */
  method AssignUnique(df: Table, uniqCol: Option<string>, numeric: Numeric) returns (uniq: seq<real>)
    requires Rectangular(df) && uniqCol == FirstExisting(df.columns, UniqueCandidates)
    ensures uniq == UniqueColumn(df, numeric)
  {
    if uniqCol.Some? {
      uniq := Numbers(Column(df, uniqCol.value), numeric);
    } else {
      var varianceCol := FindFirstExisting(df.columns, VarianceCandidates);
      if varianceCol.Some? {
        uniq := Numbers(Column(df, varianceCol.value), numeric);
      } else {
        uniq := Filled(|df.rows|, 0.0);
      }
    }
  }

  /** The `label_raw` assignment. */
  method AssignLabelText(df: Table, labCol: Option<string>) returns (texts: seq<string>)
    requires Rectangular(df) && labCol == FirstExisting(df.columns, LabelCandidates)
    ensures texts == LabelTextColumn(df)
  {
    if labCol.Some? {
      texts := Column(df, labCol.value);
    } else {
      texts := Filled(|df.rows|, "BENIGN");
    }
  }

  /** `load_and_preprocess_data` from the point the table is read: normalise the
      names, find the columns, then assign `src_ip`, `request_rate`,
      `unique_urls_proxy`, `label_raw` and `label` in turn and keep those four. */
  method LoadAndPreprocess(t: Table, numeric: Numeric) returns (out: seq<Model.TrainingRow>)
    requires Rectangular(t)
    ensures out == Preprocess(t, numeric)
  {
    var df := Table(NormalizeColumns(t.columns), t.rows);
    var cols := df.columns;
    var srcCol := FindFirstExisting(cols, SourceCandidates);
    var reqCol := FindFirstExisting(cols, RateCandidates);
    var uniqCol := FindFirstExisting(cols, UniqueCandidates);
    var labCol := FindFirstExisting(cols, LabelCandidates);
    var ips := AssignSource(df, srcCol);
    var rates := AssignRate(df, reqCol, ips, numeric);
    var uniq := AssignUnique(df, uniqCol, numeric);
    var texts := AssignLabelText(df, labCol);
    var labels := Labels(texts);
    out := Assemble(ips, rates, uniq, labels);
  }

  // ---------------------------------------------------------------------------
  // What the output promises
  // ---------------------------------------------------------------------------

  /** Each output label is 0 exactly when the row's label text reads BENIGN;
      a table without a label column is all benign. */
  lemma PreprocessLabels(t: Table, numeric: Numeric, i: nat)
    requires Rectangular(t) && i < |t.rows|
    ensures var df := Normalized(t);
      var out := Preprocess(t, numeric);
      match FirstExisting(df.columns, LabelCandidates)
      case Some(c) => (out[i].classLabel == 0 <==> Upper(Strip(Column(df, c)[i])) == "BENIGN")
      case None => out[i].classLabel == 0
  {
    var df := Normalized(t);
    if FirstExisting(df.columns, LabelCandidates).None? {
      assert LabelTextColumn(df)[i] == "BENIGN";
      BenignIsZero();
    }
  }

  /** Without a source column, row `i` is attributed to `10.0.0.<i mod 255>`. */
  lemma PreprocessSynthesizesSources(t: Table, numeric: Numeric, i: nat)
    requires Rectangular(t) && i < |t.rows|
    requires FirstExisting(Normalized(t).columns, SourceCandidates).None?
    ensures Preprocess(t, numeric)[i].srcIp == SynthesizedIp(i)
  {
  }

  /** With neither a rate nor a packet column, a row's rate is the number of
      output rows carrying its address, which is at least 1. */
  lemma PreprocessRateFallsBackToCounts(t: Table, numeric: Numeric, i: nat)
    requires Rectangular(t) && i < |t.rows|
    requires FirstExisting(Normalized(t).columns, RateCandidates).None?
    requires FirstExisting(Normalized(t).columns, PacketCandidates).None?
    ensures var out := Preprocess(t, numeric);
      out[i].requestRate == multiset(Model.TrainingIps(out))[out[i].srcIp] as real
      && out[i].requestRate >= 1.0
  {
    var df := Normalized(t);
    var ips := SourceColumn(df);
    var rates := RateColumn(df, ips, numeric);
    var uniq := UniqueColumn(df, numeric);
    var labels := Labels(LabelTextColumn(df));
    assert Preprocess(t, numeric) == Assemble(ips, rates, uniq, labels);
    AssembleIps(ips, rates, uniq, labels);
    assert rates == GroupCounts(ips);
    GroupCountsPositive(ips, i);
  }

  /** With no unique-count column and no packet length variance column, the proxy is 0. */
  lemma PreprocessUniqueDefaultsToZero(t: Table, numeric: Numeric, i: nat)
    requires Rectangular(t) && i < |t.rows|
    requires FirstExisting(Normalized(t).columns, UniqueCandidates).None?
    requires FirstExisting(Normalized(t).columns, VarianceCandidates[1..]).None?
    ensures Preprocess(t, numeric)[i].uniqueUrlsProxy == 0.0
  {
    VarianceFallbackSkipsFirst(Normalized(t).columns);
  }

  /** The detected source column becomes `src_ip`, cell for cell. */
  lemma PreprocessKeepsSourceColumn(t: Table, numeric: Numeric, i: nat, c: string)
    requires Rectangular(t) && i < |t.rows|
    requires FirstExisting(Normalized(t).columns, SourceCandidates) == Some(c)
    ensures c in Normalized(t).columns
    ensures Preprocess(t, numeric)[i].srcIp == Column(Normalized(t), c)[i]
  {
  }

  /** A detected rate column is read as a number, an unreadable cell as 0.0. */
  lemma PreprocessReadsRateColumn(t: Table, numeric: Numeric, i: nat, c: string)
    requires Rectangular(t) && i < |t.rows|
    requires FirstExisting(Normalized(t).columns, RateCandidates) == Some(c)
    ensures c in Normalized(t).columns
    ensures Preprocess(t, numeric)[i].requestRate == ToNumber(numeric, Column(Normalized(t), c)[i])
  {
  }

  /** Without a rate column, the first packet-count column stands in for it. */
  lemma PreprocessRateFallsBackToPackets(t: Table, numeric: Numeric, i: nat, c: string)
    requires Rectangular(t) && i < |t.rows|
    requires FirstExisting(Normalized(t).columns, RateCandidates).None?
    requires FirstExisting(Normalized(t).columns, PacketCandidates) == Some(c)
    ensures c in Normalized(t).columns
    ensures Preprocess(t, numeric)[i].requestRate == ToNumber(numeric, Column(Normalized(t), c)[i])
  {
  }

  /** A detected unique-count column is read as a number, an unreadable cell as 0.0. */
  lemma PreprocessReadsUniqueColumn(t: Table, numeric: Numeric, i: nat, c: string)
    requires Rectangular(t) && i < |t.rows|
    requires FirstExisting(Normalized(t).columns, UniqueCandidates) == Some(c)
    ensures c in Normalized(t).columns
    ensures Preprocess(t, numeric)[i].uniqueUrlsProxy == ToNumber(numeric, Column(Normalized(t), c)[i])
  {
  }

  /** Without a unique-count column, a `packet_length_var` column stands in
      for it (the fallback's first entry cannot match). */
  lemma PreprocessUniqueFallsBackToVariance(t: Table, numeric: Numeric, i: nat, c: string)
    requires Rectangular(t) && i < |t.rows|
    requires FirstExisting(Normalized(t).columns, UniqueCandidates).None?
    requires FirstExisting(Normalized(t).columns, VarianceCandidates[1..]) == Some(c)
    ensures c in Normalized(t).columns
    ensures Preprocess(t, numeric)[i].uniqueUrlsProxy == ToNumber(numeric, Column(Normalized(t), c)[i])
  {
    VarianceFallbackSkipsFirst(Normalized(t).columns);
  }
}
