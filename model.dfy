/** The classifier wrapper (model.py): a frozen source-address encoder
    (`LabelEncoder`) and a fitted forest whose `predict` is treated as an
    opaque decision into {0, 1}. Fitting itself is a parameter (`Learner`);
    the files the wrapper reads and writes are the fields of a `Disk`. */
module Model {
  import opened Common
  import Text

  /** One feature vector, in the column order
      `[src_ip_encoded, request_rate, unique_urls_proxy]`. */
  datatype FeatureRow = FeatureRow(srcIpEncoded: int, requestRate: real, uniqueUrlsProxy: real)

  /** One row of a training set: `src_ip, request_rate, unique_urls_proxy, label`. */
  datatype TrainingRow = TrainingRow(srcIp: string, requestRate: real, uniqueUrlsProxy: real, classLabel: int)

  /** A fitted forest, seen only through its decision: `true` means label 1. */
  type Forest = FeatureRow -> bool

  /** `RandomForestClassifier.fit` on the design matrix and target column
      (the 80/20 split it is given is drawn inside and not modelled). */
  type Learner = (seq<FeatureRow>, seq<int>) -> Forest

  datatype ModelError =
    | TrainingDataMissing  // train_model: the CSV does not exist
    | EncoderMissing       // load_model: the encoder file does not exist
    | SplitFailed          // train_model: `train_test_split` raised `ValueError`

  predicate StrictlySorted(s: seq<string>) {
    forall i, j :: 0 <= i < j < |s| ==> Text.Less(s[i], s[j])
  }

  /** Adds `x` to a strictly sorted list unless it is there already. */
  function InsertClass(x: string, s: seq<string>): (r: seq<string>)
    requires StrictlySorted(s)
    ensures StrictlySorted(r)
    ensures forall y :: y in r <==> y == x || y in s
  {
    if s == [] then [x]
    else if x == s[0] then s
    else if Text.Less(x, s[0]) then
      assert forall k :: 0 < k < |s| ==> Text.Less(x, s[k]) by {
        forall k | 0 < k < |s| ensures Text.Less(x, s[k]) {
          Text.LessTransitive(x, s[0], s[k]);
        }
      }
      [x] + s
    else
      Text.LessTotal(x, s[0]);
      var tail := InsertClass(x, s[1..]);
      assert forall k :: 0 <= k < |tail| ==> Text.Less(s[0], tail[k]) by {
        forall k | 0 <= k < |tail| ensures Text.Less(s[0], tail[k]) {
          assert tail[k] in tail;
          if tail[k] != x {
            var m :| 0 <= m < |s[1..]| && s[1..][m] == tail[k];
          }
        }
      }
      [s[0]] + tail
  }

  /** `LabelEncoder.fit`: the distinct values, sorted. */
  function FitClasses(ips: seq<string>): (classes: seq<string>)
    ensures StrictlySorted(classes)
    ensures forall ip :: ip in classes <==> ip in ips
  {
    if ips == [] then [] else InsertClass(ips[0], FitClasses(ips[1..]))
  }

  /** Position of `x` in `s`, if any. */
  function IndexOf(s: seq<string>, x: string): (r: Option<nat>)
    ensures r.Some? ==> r.value < |s| && s[r.value] == x
    ensures r.None? ==> x !in s
  {
    if s == [] then None
    else if s[0] == x then Some(0)
    else match IndexOf(s[1..], x)
      case None => None
      case Some(k) => Some(k + 1)
  }

  /** `LabelEncoder.transform` of one value, with the wrapper's `-1` for a value
      the encoder was not fitted on. */
  function Encode(classes: seq<string>, ip: string): (code: int)
    ensures ip in classes ==> 0 <= code < |classes| && classes[code] == ip
    ensures ip !in classes ==> code == -1
  {
    match IndexOf(classes, ip)
    case None => -1
    case Some(k) => k
  }

  /** The `label` column of a training set. */
  function Labels(data: seq<TrainingRow>): (y: seq<int>)
    ensures |y| == |data|
    ensures forall i :: 0 <= i < |data| ==> y[i] == data[i].classLabel
  {
    seq(|data|, i requires 0 <= i < |data| => data[i].classLabel)
  }

  /** The size of the test part `test_size=0.2` asks for out of `n` rows:
      the least count that is at least a fifth of `n`. */
  function TestSize(n: nat): (t: nat)
    ensures 5 * t >= n
    ensures t == 0 || 5 * (t - 1) < n
  {
    (n + 4) / 5
  }

  /** Whether `train_test_split(X, y, test_size=0.2, stratify=y)` returns
      instead of raising `ValueError`: the train part is not empty, no label
      occurs only once, and each part has room for one row of every label. */
  predicate Splittable(labels: seq<int>) {
    var distinct := set c | c in labels;
    var nTest := TestSize(|labels|);
    var nTrain := |labels| - nTest;
    && nTrain > 0
    && (forall c :: c in labels ==> multiset(labels)[c] >= 2)
    && nTrain >= |distinct|
    && nTest >= |distinct|
  }

  /** Whether `train_model` gets past the split on this training set. */
  predicate Trainable(data: seq<TrainingRow>) {
    Splittable(Labels(data))
  }

  /** With both labels present and no other, the split succeeds exactly when
      there are at least six rows and each label occurs at least twice. */
  lemma TwoLabelSplit(labels: seq<int>)
    requires forall c :: c in labels ==> c == 0 || c == 1
    requires 0 in labels && 1 in labels
    ensures Splittable(labels) <==>
      |labels| >= 6 && multiset(labels)[0] >= 2 && multiset(labels)[1] >= 2
  {
    var distinct := set c | c in labels;
    assert 0 in distinct && 1 in distinct;
    forall x | x in distinct ensures x in {0, 1} {
      assert x in labels;
    }
    assert distinct == {0, 1};
    assert |distinct| == 2;
  }

  /** A label that occurs once makes the split raise, whatever else the set holds. */
  lemma LoneLabelFails(labels: seq<int>, i: int)
    requires 0 <= i < |labels|
    requires forall j :: 0 <= j < |labels| && j != i ==> labels[j] != labels[i]
    ensures !Splittable(labels)
  {
    LoneOccurrence(labels, i);
  }

  lemma {:induction false} LoneOccurrence(labels: seq<int>, i: int)
    requires 0 <= i < |labels|
    requires forall j :: 0 <= j < |labels| && j != i ==> labels[j] != labels[i]
    ensures multiset(labels)[labels[i]] == 1
  {
    var x := labels[i];
    assert labels == labels[..i] + [x] + labels[i + 1..];
    assert x !in labels[..i];
    assert x !in labels[i + 1..];
  }

  /** The design matrix and target `train_model` fits on. */
  function DesignMatrix(data: seq<TrainingRow>, classes: seq<string>): (xy: (seq<FeatureRow>, seq<int>))
    ensures |xy.0| == |data| && xy.1 == Labels(data)
    ensures forall i :: 0 <= i < |data| ==>
      xy.0[i] == FeatureRow(Encode(classes, data[i].srcIp), data[i].requestRate, data[i].uniqueUrlsProxy)
      && xy.1[i] == data[i].classLabel
  {
    if data == [] then ([], [])
    else
      var rest := DesignMatrix(data[1..], classes);
      ([FeatureRow(Encode(classes, data[0].srcIp), data[0].requestRate, data[0].uniqueUrlsProxy)] + rest.0,
       [data[0].classLabel] + rest.1)
  }

  /** The files the wrapper uses. */
  class Disk {
    /** `./models/rf_model.pkl` */
    var modelFile: Option<Forest>
    /** `./models/label_encoder.pkl` */
    var encoderFile: Option<seq<string>>
    /** `./data/training_from_logs.csv` */
    var trainingCsv: Option<seq<TrainingRow>>

    constructor (modelFile: Option<Forest>, encoderFile: Option<seq<string>>, trainingCsv: Option<seq<TrainingRow>>)
      ensures this.modelFile == modelFile && this.encoderFile == encoderFile && this.trainingCsv == trainingCsv
    {
      this.modelFile := modelFile;
      this.encoderFile := encoderFile;
      this.trainingCsv := trainingCsv;
    }

    /** A saved encoder holds what `LabelEncoder.fit` leaves: sorted, distinct classes. */
    ghost predicate Valid()
      reads this
    {
      encoderFile.Some? ==> StrictlySorted(encoderFile.value)
    }
  }

  class DDoSModel {
    /** `self.model`, seen through its decision. */
    var forest: Forest
    /** Whether `self.model` has been fitted or loaded. */
    var fitted: bool
    /** `self.le.classes_`. */
    var classes: seq<string>

    ghost predicate Valid()
      reads this
    {
      fitted && StrictlySorted(classes)
    }

    /** A fresh, unfitted forest and encoder (the first lines of `__init__`). */
    constructor Unfitted()
      ensures !fitted && classes == []
    {
      forest := (f: FeatureRow) => false;
      fitted := false;
      classes := [];
    }

    /** `DDoSModel()`: load the saved artifact when the model file exists, train otherwise. */
    static method Create(disk: Disk, learn: Learner) returns (r: Result<DDoSModel, ModelError>)
      requires disk.Valid()
      modifies disk
      ensures disk.Valid()
      ensures r.Ok? ==> fresh(r.value) && r.value.Valid()
      ensures old(disk.modelFile).Some? ==>
        disk.modelFile == old(disk.modelFile) && disk.encoderFile == old(disk.encoderFile)
        && disk.trainingCsv == old(disk.trainingCsv)
        && (if old(disk.encoderFile).Some?
            then r.Ok? && r.value.forest == old(disk.modelFile).value
                 && r.value.classes == old(disk.encoderFile).value
            else r == Err(EncoderMissing))
      ensures old(disk.modelFile).None? && old(disk.trainingCsv).None? ==>
        r == Err(TrainingDataMissing) && disk.modelFile == old(disk.modelFile)
        && disk.encoderFile == old(disk.encoderFile)
      ensures old(disk.modelFile).None? && old(disk.trainingCsv).Some? && !Trainable(old(disk.trainingCsv).value) ==>
        r == Err(SplitFailed) && disk.modelFile == old(disk.modelFile)
        && disk.encoderFile == old(disk.encoderFile)
      ensures old(disk.modelFile).None? && old(disk.trainingCsv).Some? && Trainable(old(disk.trainingCsv).value) ==>
        r.Ok? && r.value.classes == FitClasses(TrainingIps(old(disk.trainingCsv).value))
        && disk.modelFile == Some(r.value.forest) && disk.encoderFile == Some(r.value.classes)
    {
      var m := new DDoSModel.Unfitted();
      var err: Option<ModelError>;
      if disk.modelFile.Some? {
        err := m.LoadModel(disk);
      } else {
        err := m.TrainModel(disk, learn);
      }
      if err.Some? {
        r := Err(err.value);
      } else {
        r := Ok(m);
      }
    }

    /** `train_model`: fails before fitting or saving anything when the training
        CSV is missing; otherwise fits the encoder on `src_ip`; fails, with the
        encoder fitted and nothing saved, when the stratified split raises; and
        otherwise fits the forest on `[src_ip_encoded, request_rate,
        unique_urls_proxy]` against `label` and saves both. */
    method TrainModel(disk: Disk, learn: Learner) returns (err: Option<ModelError>)
      modifies this, disk
      ensures old(disk.trainingCsv).None? ==>
        err == Some(TrainingDataMissing) && unchanged(this) && unchanged(disk)
      ensures old(disk.trainingCsv).Some? && !Trainable(old(disk.trainingCsv).value) ==>
        var data := old(disk.trainingCsv).value;
        err == Some(SplitFailed) && classes == FitClasses(TrainingIps(data))
        && forest == old(forest) && fitted == old(fitted) && unchanged(disk)
      ensures old(disk.trainingCsv).Some? && Trainable(old(disk.trainingCsv).value) ==>
        var data := old(disk.trainingCsv).value;
        var xy := DesignMatrix(data, FitClasses(TrainingIps(data)));
        err == None && Valid()
        && classes == FitClasses(TrainingIps(data))
        && forest == learn(xy.0, xy.1)
        && disk.modelFile == Some(forest) && disk.encoderFile == Some(classes)
        && disk.trainingCsv == old(disk.trainingCsv)
    {
      if disk.trainingCsv.None? {
        return Some(TrainingDataMissing);
      }
      var data := disk.trainingCsv.value;
      classes := FitClasses(TrainingIps(data));
      var xy := DesignMatrix(data, classes);
      if !Splittable(xy.1) {
        return Some(SplitFailed);
      }
      forest := learn(xy.0, xy.1);
      fitted := true;
      disk.modelFile := Some(forest);
      disk.encoderFile := Some(classes);
      err := None;
    }

    /** `load_model`: the forest first, then the encoder; a missing encoder
        file raises after the forest was assigned. */
    method LoadModel(disk: Disk) returns (err: Option<ModelError>)
      requires disk.modelFile.Some? && disk.Valid()
      modifies this
      ensures forest == disk.modelFile.value
      ensures disk.encoderFile.Some? ==>
        err == None && classes == disk.encoderFile.value && Valid()
      ensures disk.encoderFile.None? ==> err == Some(EncoderMissing)
    {
      forest := disk.modelFile.value;
      if disk.encoderFile.None? {
        return Some(EncoderMissing);
      }
      classes := disk.encoderFile.value;
      fitted := true;
      err := None;
    }

    /** `encode_ip`: the address's index among the fitted classes, or `-1`. */
    function EncodeIp(ip: string): (code: int)
      reads this
      ensures ip in classes ==> 0 <= code < |classes| && classes[code] == ip
      ensures ip !in classes ==> code == -1
    {
      Encode(classes, ip)
    }

    /** `predict` on one feature row: the forest's label. */
    function Predict(f: FeatureRow): (decision: int)
      reads this
      ensures decision == 0 || decision == 1
      ensures decision == 1 <==> forest(f)
    {
      if forest(f) then 1 else 0
    }
  }

  /** The `src_ip` column of a training set. */
  function TrainingIps(data: seq<TrainingRow>): (ips: seq<string>)
    ensures |ips| == |data| && forall i :: 0 <= i < |data| ==> ips[i] == data[i].srcIp
  {
    if data == [] then [] else [data[0].srcIp] + TrainingIps(data[1..])
  }

  /** Every training address gets its own non-negative code, and no other address does. */
  lemma EncodingOfTrainingSet(data: seq<TrainingRow>, ip: string)
    ensures var classes := FitClasses(TrainingIps(data));
      (exists i :: 0 <= i < |data| && data[i].srcIp == ip) <==> Encode(classes, ip) >= 0
  {
    var ips := TrainingIps(data);
    if exists i :: 0 <= i < |data| && data[i].srcIp == ip {
      var i :| 0 <= i < |data| && data[i].srcIp == ip;
      assert ips[i] == ip;
    }
  }

  /** Distinct addresses seen in training never share a code. */
  lemma EncodeInjective(classes: seq<string>, a: string, b: string)
    requires a in classes && b in classes && a != b
    ensures Encode(classes, a) != Encode(classes, b)
  {
  }
}
