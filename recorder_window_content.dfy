/**
  The recorder tab: the flags that guard recording and stopping, the loading
  of saved stages into its recorder, and the flattening of the recorder's
  stages into the three sheets of the Detail workbook.
*/
module RecorderTab {
  import opened Text
  import opened Seqs
  import opened Records
  import opened StageStore

  // ---------------------------------------------------------------------------
  // Export

  datatype RecordKind = InputKind | ClientKind | ServerKind

  /** A record as the exporter receives it: an object of one of the three record types. */
  datatype ExportRecord = InputRow(input: InputClient) | ClientRow(client: OutputClient) | ServerRow(server: OutputServer)

  /** One (SheetName, Data) pair of the export. */
  datatype ExportSheet = ExportSheet(name: string, data: seq<ExportRecord>)

  function SheetName(kind: RecordKind): string {
    match kind
    case InputKind => "InputClients"
    case ClientKind => "OutputClients"
    case ServerKind => "OutputServers"
  }

  /** The position of a sheet name among the three, or 3 for any other name. */
  function SheetRank(name: string): nat {
    if name == "InputClients" then 0
    else if name == "OutputClients" then 1
    else if name == "OutputServers" then 2
    else 3
  }

  /** The records of one kind held by a stage, in their collection's order. */
  function StageRecords(t: TestStage, kind: RecordKind): seq<ExportRecord> {
    match kind
    case InputKind => seq(|t.inputClients|, i requires 0 <= i < |t.inputClients| => InputRow(t.inputClients[i]))
    case ClientKind => seq(|t.outputClients|, i requires 0 <= i < |t.outputClients| => ClientRow(t.outputClients[i]))
    case ServerKind => seq(|t.outputServers|, i requires 0 <= i < |t.outputServers| => ServerRow(t.outputServers[i]))
  }

  predicate KeysOf(stages: map<int, TestStage>, keys: seq<int>) {
    forall i :: 0 <= i < |keys| ==> keys[i] in stages
  }

  /** The ascending keys of a dictionary are keys of it. */
  lemma SortedKeysOf(stages: map<int, TestStage>)
    ensures KeysOf(stages, SortedSet(stages.Keys))
  {
    var keys := SortedSet(stages.Keys);
    forall i | 0 <= i < |keys| ensures keys[i] in stages {
      assert keys[i] in keys;
    }
  }

  /** The records of one kind of the stage numbered `k`; a number with no stage contributes none. */
  function Block(stages: map<int, TestStage>, k: int, kind: RecordKind): seq<ExportRecord> {
    if k in stages then StageRecords(stages[k], kind) else []
  }

  /** The records of one kind of the stages `keys`, stage after stage. */
  function Collected(stages: map<int, TestStage>, keys: seq<int>, kind: RecordKind): seq<ExportRecord> {
    if keys == [] then []
    else Collected(stages, keys[..|keys| - 1], kind) + Block(stages, keys[|keys| - 1], kind)
  }

  /** The list a section of PrepareDataForExport builds: all stages in ascending key order. */
  function AllRecords(stages: map<int, TestStage>, kind: RecordKind): seq<ExportRecord> {
    Collected(stages, SortedSet(stages.Keys), kind)
  }

  /** The sheet of one kind holding `all`, present only when it has records. */
  function Part(kind: RecordKind, all: seq<ExportRecord>): seq<ExportSheet> {
    if all == [] then [] else [ExportSheet(SheetName(kind), all)]
  }

  /** The three parts in the order the export adds them. */
  function Assemble(inputs: seq<ExportRecord>, clients: seq<ExportRecord>, servers: seq<ExportRecord>): seq<ExportSheet> {
    Part(InputKind, inputs) + Part(ClientKind, clients) + Part(ServerKind, servers)
  }

  function KindRecords(kind: RecordKind, inputs: seq<ExportRecord>, clients: seq<ExportRecord>, servers: seq<ExportRecord>): seq<ExportRecord> {
    match kind
    case InputKind => inputs
    case ClientKind => clients
    case ServerKind => servers
  }

  /** PrepareDataForExport's result. */
  function ExportSheets(stages: map<int, TestStage>): seq<ExportSheet> {
    Assemble(AllRecords(stages, InputKind), AllRecords(stages, ClientKind), AllRecords(stages, ServerKind))
  }

  /** Collecting over two runs of keys is collecting over each in turn. */
  lemma {:induction false} CollectedAppend(stages: map<int, TestStage>, a: seq<int>, b: seq<int>, kind: RecordKind)
    ensures Collected(stages, a + b, kind) == Collected(stages, a, kind) + Collected(stages, b, kind)
    decreases |b|
  {
    if b == [] {
      assert a + b == a;
    } else {
      var init := b[..|b| - 1];
      var last := b[|b| - 1];
      SnocParts(a, b);
      CollectedAppend(stages, a, init, kind);
      CollectedSnoc(stages, a + init, last, kind);
      CollectedSnoc(stages, init, last, kind);
      var block := Block(stages, last, kind);
      assert Collected(stages, a, kind) + Collected(stages, init, kind) + block
        == Collected(stages, a, kind) + (Collected(stages, init, kind) + block);
    }
  }

  /** Collecting over one more key appends that stage's block. */
  lemma CollectedSnoc(stages: map<int, TestStage>, keys: seq<int>, k: int, kind: RecordKind)
    ensures Collected(stages, keys + [k], kind) == Collected(stages, keys, kind) + Block(stages, k, kind)
  {
    var longer := keys + [k];
    assert longer[..|longer| - 1] == keys;
  }

  /** Some stage among `keys` holds `x`. */
  predicate HeldBySome(stages: map<int, TestStage>, keys: seq<int>, kind: RecordKind, x: ExportRecord) {
    exists i :: 0 <= i < |keys| && x in Block(stages, keys[i], kind)
  }

  /** A record is collected exactly when one of the stages holds it. */
  lemma {:induction false} CollectedMembers(stages: map<int, TestStage>, keys: seq<int>, kind: RecordKind, x: ExportRecord)
    ensures x in Collected(stages, keys, kind) <==> exists i :: 0 <= i < |keys| && x in Block(stages, keys[i], kind)
    decreases |keys|
  {
    if keys != [] {
      CollectedMembers(stages, keys[..|keys| - 1], kind, x);
      CollectedMembersStep(stages, keys, kind, x);
    }
    assert (x in Collected(stages, keys, kind) <==> HeldBySome(stages, keys, kind, x));
  }

  /** The inductive step of CollectedMembers: one more key. */
  lemma CollectedMembersStep(stages: map<int, TestStage>, keys: seq<int>, kind: RecordKind, x: ExportRecord)
    requires keys != []
    requires x in Collected(stages, keys[..|keys| - 1], kind) <==> HeldBySome(stages, keys[..|keys| - 1], kind, x)
    ensures x in Collected(stages, keys, kind) <==> HeldBySome(stages, keys, kind, x)
  {
    var init := keys[..|keys| - 1];
    var block := Block(stages, keys[|keys| - 1], kind);
    assert Collected(stages, keys, kind) == Collected(stages, init, kind) + block;
    HeldBySomeSnoc(stages, keys, kind, x);
  }

  /** A record is held by one of `keys` exactly when it is held by one of the front or by the last. */
  lemma HeldBySomeSnoc(stages: map<int, TestStage>, keys: seq<int>, kind: RecordKind, x: ExportRecord)
    requires keys != []
    ensures HeldBySome(stages, keys, kind, x)
      <==> HeldBySome(stages, keys[..|keys| - 1], kind, x) || x in Block(stages, keys[|keys| - 1], kind)
  {
    var init := keys[..|keys| - 1];
    if HeldBySome(stages, init, kind, x) {
      var i :| 0 <= i < |init| && x in Block(stages, init[i], kind);
      assert keys[i] == init[i];
    }
    if HeldBySome(stages, keys, kind, x) {
      var i :| 0 <= i < |keys| && x in Block(stages, keys[i], kind);
      if i < |init| {
        assert init[i] == keys[i];
      }
    }
  }

  /** Any run of keys of a dictionary, cut anywhere, gives runs of keys of it. */
  lemma KeysOfSlice(stages: map<int, TestStage>, keys: seq<int>, lo: int, hi: int)
    requires KeysOf(stages, keys) && 0 <= lo <= hi <= |keys|
    ensures KeysOf(stages, keys[lo..hi])
  {
    forall i | 0 <= i < hi - lo ensures keys[lo..hi][i] in stages {
      assert keys[lo..hi][i] == keys[lo + i];
    }
  }

  /** The records collected over a run of keys, split around the key at position `i`. */
  lemma CollectedAround(stages: map<int, TestStage>, keys: seq<int>, i: int, kind: RecordKind)
    requires 0 <= i < |keys|
    ensures Collected(stages, keys, kind)
      == Collected(stages, keys[..i], kind) + Block(stages, keys[i], kind) + Collected(stages, keys[i + 1..], kind)
  {
    var one := [keys[i]];
    assert keys == keys[..i] + one + keys[i + 1..];
    CollectedSnoc(stages, [], keys[i], kind);
    assert [] + one == one;
    CollectedAppend(stages, keys[..i], one, kind);
    CollectedAppend(stages, keys[..i] + one, keys[i + 1..], kind);
  }

  /** Over any run of keys, the block of the key at `i` comes before that of the key at `j > i`. */
  lemma BlocksInOrder(stages: map<int, TestStage>, keys: seq<int>, kind: RecordKind, i: int, j: int)
    requires 0 <= i < j < |keys|
    ensures exists front: seq<ExportRecord>, middle: seq<ExportRecord>, back: seq<ExportRecord> ::
      Collected(stages, keys, kind) == front + Block(stages, keys[i], kind) + middle + Block(stages, keys[j], kind) + back
  {
    CollectedAround(stages, keys, j, kind);
    var head := keys[..j];
    assert head[i] == keys[i];
    CollectedAround(stages, head, i, kind);
    var front := Collected(stages, head[..i], kind);
    var middle := Collected(stages, head[i + 1..], kind);
    var back := Collected(stages, keys[j + 1..], kind);
    var blockA := Block(stages, keys[i], kind);
    var blockB := Block(stages, keys[j], kind);
    var before := Collected(stages, head, kind);
    assert Collected(stages, keys, kind) == before + blockB + back;
    assert before == front + blockA + middle;
    assert before + blockB + back == front + blockA + middle + blockB + back;
  }

  /**
    The export lists every stage's records as one block, in its collection's
    order, and the block of a lower stage number comes before that of a
    higher one.
  */
  lemma StageBlocksInOrder(stages: map<int, TestStage>, kind: RecordKind, a: int, b: int)
    requires a in stages && b in stages && a < b
    ensures exists front: seq<ExportRecord>, middle: seq<ExportRecord>, back: seq<ExportRecord> ::
      AllRecords(stages, kind) == front + StageRecords(stages[a], kind) + middle + StageRecords(stages[b], kind) + back
  {
    var keys := SortedSet(stages.Keys);
    assert a in keys && b in keys;
    var i :| 0 <= i < |keys| && keys[i] == a;
    var j :| 0 <= j < |keys| && keys[j] == b;
    assert i < j;
    BlocksInOrder(stages, keys, kind, i, j);
  }

  /**
    Each stage's block occurs exactly once in the export: the ascending keys
    split around `k` into keys below it and keys above it, neither holding
    `k`, and the export is the lower stages' records, then `k`'s, then the
    upper stages'.
  */
  lemma StageBlockOnce(stages: map<int, TestStage>, kind: RecordKind, k: int) returns (lower: seq<int>, upper: seq<int>)
    requires k in stages
    ensures SortedSet(stages.Keys) == lower + [k] + upper
    ensures forall m :: 0 <= m < |lower| ==> lower[m] < k
    ensures forall m :: 0 <= m < |upper| ==> k < upper[m]
    ensures k !in lower && k !in upper
    ensures AllRecords(stages, kind)
      == Collected(stages, lower, kind) + StageRecords(stages[k], kind) + Collected(stages, upper, kind)
  {
    var keys := SortedSet(stages.Keys);
    assert k in keys;
    var i :| 0 <= i < |keys| && keys[i] == k;
    lower, upper := SplitIncreasing(keys, i);
    CollectedAround(stages, keys, i, kind);
    assert AllRecords(stages, kind) == Collected(stages, keys, kind);
    assert Block(stages, k, kind) == StageRecords(stages[k], kind);
  }

  /** Around any of its elements, a strictly increasing sequence has only smaller elements before and larger ones after. */
  lemma SplitIncreasing(keys: seq<int>, i: int) returns (lower: seq<int>, upper: seq<int>)
    requires StrictlyIncreasing(keys) && 0 <= i < |keys|
    ensures lower == keys[..i] && upper == keys[i + 1..]
    ensures keys == lower + [keys[i]] + upper
    ensures forall m :: 0 <= m < |lower| ==> lower[m] < keys[i]
    ensures forall m :: 0 <= m < |upper| ==> keys[i] < upper[m]
    ensures keys[i] !in lower && keys[i] !in upper
  {
    lower, upper := keys[..i], keys[i + 1..];
    assert forall m :: 0 <= m < |upper| ==> upper[m] == keys[i + 1 + m];
  }

  /** The export holds a record exactly when some stage holds it. */
  lemma AllRecordsMembers(stages: map<int, TestStage>, kind: RecordKind, x: ExportRecord)
    ensures x in AllRecords(stages, kind) <==> exists k :: k in stages && x in StageRecords(stages[k], kind)
  {
    var keys := SortedSet(stages.Keys);
    CollectedMembers(stages, keys, kind, x);
    if exists k :: k in stages && x in StageRecords(stages[k], kind) {
      var k :| k in stages && x in StageRecords(stages[k], kind);
      var i :| 0 <= i < |keys| && keys[i] == k;
    }
  }

  function KindRank(kind: RecordKind): nat {
    match kind
    case InputKind => 0
    case ClientKind => 1
    case ServerKind => 2
  }

  lemma SheetNameRank(kind: RecordKind)
    ensures SheetRank(SheetName(kind)) == KindRank(kind)
  {
    match kind
    case InputKind =>
    case ClientKind =>
      assert "OutputClients"[0] != "InputClients"[0];
    case ServerKind =>
      assert "OutputServers"[0] != "InputClients"[0];
      assert "OutputServers"[6] != "OutputClients"[6];
  }

  /** A kind's part of the export: at most one sheet, non-empty, named after the kind. */
  lemma PartShape(kind: RecordKind, all: seq<ExportRecord>)
    ensures var part := Part(kind, all);
      && |part| <= 1
      && (forall i :: 0 <= i < |part| ==> part[i].data == all && part[i].name == SheetName(kind))
      && (part != [] <==> all != [])
  {
  }

  /**
    The sheets come in the order InputClients, OutputClients, OutputServers,
    at most one of each, and none is empty.
  */
  lemma AssembleShape(inputs: seq<ExportRecord>, clients: seq<ExportRecord>, servers: seq<ExportRecord>)
    ensures var sheets := Assemble(inputs, clients, servers);
      && |sheets| <= 3
      && (forall i :: 0 <= i < |sheets| ==> sheets[i].data != [] && SheetRank(sheets[i].name) < 3)
      && (forall i, j :: 0 <= i < j < |sheets| ==> SheetRank(sheets[i].name) < SheetRank(sheets[j].name))
  {
    var p0 := Part(InputKind, inputs);
    var p1 := Part(ClientKind, clients);
    var p2 := Part(ServerKind, servers);
    PartShape(InputKind, inputs);
    PartShape(ClientKind, clients);
    PartShape(ServerKind, servers);
    SheetNameRank(InputKind);
    SheetNameRank(ClientKind);
    SheetNameRank(ServerKind);
    var sheets := p0 + p1 + p2;
    forall i | 0 <= i < |sheets|
      ensures sheets[i].data != []
      ensures SheetRank(sheets[i].name) == if i < |p0| then 0 else if i < |p0| + |p1| then 1 else 2
    {
      if i < |p0| {
        assert sheets[i] == p0[i];
      } else if i < |p0| + |p1| {
        assert sheets[i] == p1[i - |p0|];
      } else {
        assert sheets[i] == p2[i - |p0| - |p1|];
      }
    }
  }

  /** A sheet carrying a kind's name holds that kind's records, and it is there exactly when they are not empty. */
  lemma AssembleNamed(inputs: seq<ExportRecord>, clients: seq<ExportRecord>, servers: seq<ExportRecord>, kind: RecordKind)
    ensures var sheets := Assemble(inputs, clients, servers);
      forall i :: 0 <= i < |sheets| && sheets[i].name == SheetName(kind) ==>
        sheets[i].data == KindRecords(kind, inputs, clients, servers)
    ensures var sheets := Assemble(inputs, clients, servers);
      (exists i :: 0 <= i < |sheets| && sheets[i].name == SheetName(kind))
        <==> KindRecords(kind, inputs, clients, servers) != []
  {
    AssembleNamedData(inputs, clients, servers, kind);
    if KindRecords(kind, inputs, clients, servers) != [] {
      AssembleHasSheet(inputs, clients, servers, kind);
    }
  }

  /** Every sheet carrying a kind's name holds that kind's records, which are not empty. */
  lemma AssembleNamedData(inputs: seq<ExportRecord>, clients: seq<ExportRecord>, servers: seq<ExportRecord>, kind: RecordKind)
    ensures var sheets := Assemble(inputs, clients, servers);
      forall i :: 0 <= i < |sheets| && sheets[i].name == SheetName(kind) ==>
        sheets[i].data == KindRecords(kind, inputs, clients, servers) && sheets[i].data != []
  {
    var p0 := Part(InputKind, inputs);
    var p1 := Part(ClientKind, clients);
    var p2 := Part(ServerKind, servers);
    PartShape(InputKind, inputs);
    PartShape(ClientKind, clients);
    PartShape(ServerKind, servers);
    SheetNameRank(InputKind);
    SheetNameRank(ClientKind);
    SheetNameRank(ServerKind);
    SheetNameRank(kind);
    var sheets := p0 + p1 + p2;
    forall i | 0 <= i < |sheets| && sheets[i].name == SheetName(kind)
      ensures sheets[i].data == KindRecords(kind, inputs, clients, servers)
      ensures sheets[i].data != []
    {
      if i < |p0| {
        assert sheets[i] == p0[i];
      } else if i < |p0| + |p1| {
        assert sheets[i] == p1[i - |p0|];
      } else {
        assert sheets[i] == p2[i - |p0| - |p1|];
      }
    }
  }

  /** A kind with records has a sheet carrying its name. */
  lemma AssembleHasSheet(inputs: seq<ExportRecord>, clients: seq<ExportRecord>, servers: seq<ExportRecord>, kind: RecordKind)
    requires KindRecords(kind, inputs, clients, servers) != []
    ensures var sheets := Assemble(inputs, clients, servers);
      exists i :: 0 <= i < |sheets| && sheets[i].name == SheetName(kind)
  {
    var p0 := Part(InputKind, inputs);
    var p1 := Part(ClientKind, clients);
    var p2 := Part(ServerKind, servers);
    var sheets := p0 + p1 + p2;
    assert Assemble(inputs, clients, servers) == sheets;
    var w: nat, part: seq<ExportSheet>, all: seq<ExportRecord>;
    match kind {
      case InputKind =>
        w, part, all := 0, p0, inputs;
      case ClientKind =>
        w, part, all := |p0|, p1, clients;
      case ServerKind =>
        w, part, all := |p0| + |p1|, p2, servers;
    }
    assert part == Part(kind, all) && all != [];
    PartShape(kind, all);
    assert sheets[w] == part[0];
  }

  /** The shape of the export, for the recorder's stages. */
  lemma ExportSheetsShape(stages: map<int, TestStage>)
    ensures var sheets := ExportSheets(stages);
      && |sheets| <= 3
      && (forall i :: 0 <= i < |sheets| ==> sheets[i].data != [] && SheetRank(sheets[i].name) < 3)
      && (forall i, j :: 0 <= i < j < |sheets| ==> SheetRank(sheets[i].name) < SheetRank(sheets[j].name))
  {
    AssembleShape(AllRecords(stages, InputKind), AllRecords(stages, ClientKind), AllRecords(stages, ServerKind));
  }

  /** Some stage holds a record of the kind exactly when the kind's list is not empty. */
  lemma AllRecordsNonEmpty(stages: map<int, TestStage>, kind: RecordKind)
    ensures AllRecords(stages, kind) != [] <==> exists k :: k in stages && StageRecords(stages[k], kind) != []
  {
    var all := AllRecords(stages, kind);
    if all != [] {
      AllRecordsMembers(stages, kind, all[0]);
    }
    if exists k :: k in stages && StageRecords(stages[k], kind) != [] {
      var k :| k in stages && StageRecords(stages[k], kind) != [];
      AllRecordsMembers(stages, kind, StageRecords(stages[k], kind)[0]);
    }
  }

  /** A kind has its sheet, holding all its records, exactly when some stage holds at least one of them. */
  lemma ExportSheetPresence(stages: map<int, TestStage>, kind: RecordKind)
    ensures (exists i :: 0 <= i < |ExportSheets(stages)| && ExportSheets(stages)[i].name == SheetName(kind))
      <==> exists k :: k in stages && StageRecords(stages[k], kind) != []
    ensures forall i :: 0 <= i < |ExportSheets(stages)| && ExportSheets(stages)[i].name == SheetName(kind) ==>
      ExportSheets(stages)[i].data == AllRecords(stages, kind)
  {
    var inputs := AllRecords(stages, InputKind);
    var clients := AllRecords(stages, ClientKind);
    var servers := AllRecords(stages, ServerKind);
    var sheets := Assemble(inputs, clients, servers);
    assert ExportSheets(stages) == sheets;
    AssembleNamed(inputs, clients, servers, kind);
    assert KindRecords(kind, inputs, clients, servers) == AllRecords(stages, kind) by {
      match kind
      case InputKind =>
      case ClientKind =>
      case ServerKind =>
    }
    AllRecordsNonEmpty(stages, kind);
  }

  /** The inner foreach: every record of the stage's collection of the kind, added in order. */
  method AddStageRecords(all: seq<ExportRecord>, t: TestStage, kind: RecordKind) returns (r: seq<ExportRecord>)
    ensures r == all + StageRecords(t, kind)
  {
    var items := StageRecords(t, kind);
    r := all;
    for i := 0 to |items|
      invariant r == all + items[..i]
    {
      assert items[..i + 1] == items[..i] + [items[i]];
      r := r + [items[i]];
    }
    assert items[..|items|] == items;
  }

  /** Collecting one more key adds that stage's records at the end. */
  lemma CollectedStep(stages: map<int, TestStage>, keys: seq<int>, i: int, kind: RecordKind)
    requires 0 <= i < |keys| && keys[i] in stages
    ensures Collected(stages, keys[..i + 1], kind) == Collected(stages, keys[..i], kind) + StageRecords(stages[keys[i]], kind)
  {
    assert keys[..i + 1][..i] == keys[..i];
  }

  /** The foreach over a run of keys, each stage's records in turn. */
  method CollectOver(stages: map<int, TestStage>, keys: seq<int>, kind: RecordKind) returns (all: seq<ExportRecord>)
    requires KeysOf(stages, keys)
    ensures all == Collected(stages, keys, kind)
  {
    all := [];
    for i := 0 to |keys|
      invariant all == Collected(stages, keys[..i], kind)
    {
      CollectedStep(stages, keys, i, kind);
      all := AddStageRecords(all, stages[keys[i]], kind);
    }
    assert keys[..|keys|] == keys;
  }

  /** One section of PrepareDataForExport: the stages in ascending key order (OrderBy), each one's records in turn. */
  method CollectRecords(stages: map<int, TestStage>, kind: RecordKind) returns (all: seq<ExportRecord>)
    ensures all == AllRecords(stages, kind)
  {
    SortedKeysOf(stages);
    all := CollectOver(stages, SortedSet(stages.Keys), kind);
  }

  /** PrepareDataForExport: the three sections in order, each added only when it is not empty. */
  method PrepareDataForExport(recorder: RecorderWindow) returns (sheets: seq<ExportSheet>)
    ensures sheets == ExportSheets(recorder.testStages)
  {
    var stages := recorder.testStages;
    sheets := [];
    var allInputClients := CollectRecords(stages, InputKind);
    if |allInputClients| > 0 {
      sheets := sheets + [ExportSheet("InputClients", allInputClients)];
    }
    assert sheets == Part(InputKind, allInputClients);
    ghost var inputs := sheets;
    var allOutputClients := CollectRecords(stages, ClientKind);
    if |allOutputClients| > 0 {
      sheets := sheets + [ExportSheet("OutputClients", allOutputClients)];
    }
    assert sheets == inputs + Part(ClientKind, allOutputClients);
    ghost var clients := sheets;
    var allOutputServers := CollectRecords(stages, ServerKind);
    if |allOutputServers| > 0 {
      sheets := sheets + [ExportSheet("OutputServers", allOutputServers)];
    }
    assert sheets == clients + Part(ServerKind, allOutputServers);
  }

  // ---------------------------------------------------------------------------
  // The tab

  /** What the Start Record button ends in (the message boxes are not modelled). */
  datatype RecordOutcome = ReadOnlyRefused | StoppedRefused | NotRunningRefused | NoRecorder | BlankAction | Started

  /** The first element of an ascending key list is the least key. */
  lemma SortedSetFirstIsMin(s: set<int>)
    requires s != {}
    ensures |SortedSet(s)| > 0 && IsMin(SortedSet(s)[0], s)
  {
    var keys := SortedSet(s);
    forall x | x in s ensures keys[0] <= x {
      var i :| 0 <= i < |keys| && keys[i] == x;
    }
  }

  /** Two dictionaries with the same keys, listed by `keys`, and the same values are equal. */
  lemma SameMap(m: map<int, TestStage>, stages: map<int, TestStage>, keys: seq<int>)
    requires forall k :: k in m <==> k in keys
    requires forall k :: k in stages <==> k in keys
    requires forall k :: k in m ==> k in stages && m[k] == stages[k]
    ensures m == stages
  {
    forall k ensures k in m.Keys <==> k in stages.Keys {
      assert k in m <==> k in keys;
      assert k in stages <==> k in keys;
    }
    assert m.Keys == stages.Keys;
    forall k | k in m ensures m[k] == stages[k] {
    }
  }

  /** The clearing and the foreach of LoadTestStages: the recorder gets the stages, listed as `keys`. */
  method Refill(w: RecorderWindow, stages: map<int, TestStage>, keys: seq<int>)
    requires KeysOf(stages, keys) && forall k :: k in stages ==> k in keys
    modifies w
    ensures w.testStages == stages && w.stageKeys == keys
    ensures w.stepCounter == old(w.stepCounter) && w.ignoreTexts == old(w.ignoreTexts)
    ensures w.selectedStageKey == old(w.selectedStageKey)
  {
    w.testStages := map[];
    w.stageKeys := [];
    for i := 0 to |keys|
      invariant forall k :: k in w.testStages <==> k in keys[..i]
      invariant forall k :: k in w.testStages ==> k in stages && w.testStages[k] == stages[k]
      invariant w.stageKeys == keys[..i]
      invariant w.stepCounter == old(w.stepCounter) && w.ignoreTexts == old(w.ignoreTexts)
      invariant w.selectedStageKey == old(w.selectedStageKey)
    {
      assert keys[..i + 1] == keys[..i] + [keys[i]];
      w.testStages := w.testStages[keys[i] := stages[keys[i]]];
      w.stageKeys := w.stageKeys + [keys[i]];
    }
    assert keys[..|keys|] == keys;
    forall k ensures k in stages <==> k in keys {
      if k in keys {
        var i :| 0 <= i < |keys| && keys[i] == k;
      }
    }
    SameMap(w.testStages, stages, keys);
  }

  class RecorderWindowContent {
    var recorder: RecorderWindow?
    var isReadOnly: bool
    var isRunning: bool
    var isDisposed: bool
    var isMiddlewareOwner: bool
    var hasUnsavedChanges: bool

    /** A tab before its initialisation has run: nothing started, nothing disposed. */
    constructor(readOnly: bool, recorderWindow: RecorderWindow?)
      ensures isReadOnly == readOnly && recorder == recorderWindow
      ensures !isRunning && !isDisposed && !isMiddlewareOwner && !hasUnsavedChanges
    {
      isReadOnly := readOnly;
      recorder := recorderWindow;
      isRunning := false;
      isDisposed := false;
      isMiddlewareOwner := false;
      hasUnsavedChanges := false;
    }

    /**
      LoadTestStages: without a recorder nothing happens; otherwise the
      recorder's stages and keys are cleared and refilled in ascending key
      order, and the first (least) key is selected when there is one. The
      recorder's counter is not touched.
    */
    method LoadTestStages(stages: map<int, TestStage>)
      modifies recorder
      ensures recorder == old(recorder)
      ensures recorder != null ==>
        && recorder.testStages == stages
        && recorder.stageKeys == SortedSet(stages.Keys)
        && recorder.selectedStageKey == (if stages == map[] then old(recorder.selectedStageKey) else Min(stages.Keys))
        && recorder.stepCounter == old(recorder.stepCounter)
        && recorder.ignoreTexts == old(recorder.ignoreTexts)
        && recorder.Valid()
    {
      if recorder == null {
        return;
      }
      var w := recorder;
      var keys := SortedSet(stages.Keys);
      SortedKeysOf(stages);
      Refill(w, stages, keys);
      if |w.stageKeys| > 0 {
        SortedSetFirstIsMin(stages.Keys);
        w.SetSelectedStageKey(w.stageKeys[0]);
      }
    }

    /**
      StartProcessesAsync and the end of InitializeRecorder: the tab starts
      the middleware, and so owns it, when `middlewareRunning` (the reflected
      IsRunning flag) says no session runs yet; otherwise it shares the
      running one. Then the tab is running with nothing unsaved.
    */
    method ProcessesStarted(middlewareRunning: bool)
      modifies this
      ensures isRunning && !hasUnsavedChanges
      ensures isReadOnly == old(isReadOnly) && isDisposed == old(isDisposed) && recorder == old(recorder)
      ensures isMiddlewareOwner == (old(isMiddlewareOwner) || !middlewareRunning)
    {
      if !middlewareRunning {
        isMiddlewareOwner := true;
      }
      isRunning := true;
      hasUnsavedChanges := false;
    }

    /**
      StopAllProcessesAsync's flags: nothing happens on a read-only, stopped or
      disposed tab; otherwise the tab ends disposed and not running, and gives
      up the middleware if it owned it.
    */
    method StopAllProcesses()
      modifies this
      ensures old(isReadOnly || !isRunning || isDisposed) ==> unchanged(this)
      ensures !old(isReadOnly || !isRunning || isDisposed) ==>
        && isDisposed && !isRunning && !isMiddlewareOwner
        && isReadOnly == old(isReadOnly) && recorder == old(recorder)
        && hasUnsavedChanges == old(hasUnsavedChanges)
    {
      if isReadOnly {
        return;
      }
      if !isRunning || isDisposed {
        return;
      }
      if isMiddlewareOwner {
        isMiddlewareOwner := false;
      }
      isDisposed := true;
      isRunning := false;
    }

    /**
      BtnStartRecord_Click once the action name is typed: refused on a
      read-only, disposed or not-running tab (in that order); with a recorder
      and a non-blank action, a new stage is started and the tab has unsaved
      changes.
    */
    method StartRecord(action: string) returns (outcome: RecordOutcome)
      modifies this, recorder
      ensures recorder == old(recorder) && isReadOnly == old(isReadOnly)
      ensures isRunning == old(isRunning) && isDisposed == old(isDisposed)
      ensures outcome == ReadOnlyRefused <==> old(isReadOnly)
      ensures outcome == StoppedRefused <==> !old(isReadOnly) && old(isDisposed)
      ensures outcome == NotRunningRefused <==> !old(isReadOnly) && !old(isDisposed) && !old(isRunning)
      ensures outcome == NoRecorder <==> !old(isReadOnly) && !old(isDisposed) && old(isRunning) && recorder == null
      ensures outcome == BlankAction <==>
        !old(isReadOnly) && !old(isDisposed) && old(isRunning) && recorder != null && IsBlank(action)
      ensures outcome == Started <==>
        !old(isReadOnly) && !old(isDisposed) && old(isRunning) && recorder != null && !IsBlank(action)
      ensures outcome != Started ==> hasUnsavedChanges == old(hasUnsavedChanges)
      ensures outcome != Started && recorder != null ==> unchanged(recorder)
      ensures outcome == Started ==>
        && hasUnsavedChanges
        && recorder.stepCounter == old(recorder.stepCounter) + 1
        && recorder.testStages == old(recorder.testStages)[recorder.stepCounter := NewStage(recorder.stepCounter, action, "", "")]
        && recorder.stageKeys == old(recorder.stageKeys) + [recorder.stepCounter]
        && recorder.selectedStageKey == recorder.stepCounter
        && (old(recorder.Valid() && recorder.Issued()) ==> recorder.Valid() && recorder.Issued())
    {
      if isReadOnly {
        return ReadOnlyRefused;
      }
      if isDisposed {
        return StoppedRefused;
      }
      if !isRunning {
        return NotRunningRefused;
      }
      if recorder == null {
        return NoRecorder;
      }
      if IsBlank(action) {
        return BlankAction;
      }
      recorder.AddActionStage(action, "", "");
      hasUnsavedChanges := true;
      outcome := Started;
    }
  }

  /**
    A tab that started the middleware owns it until it is stopped, gives it
    up when it stops, and then refuses to record any further.
  */
  method StopThenRecordExample() returns (ownerWhileRunning: bool, ownerAfterStop: bool, outcome: RecordOutcome)
    ensures ownerWhileRunning && !ownerAfterStop && outcome == StoppedRefused
  {
    var w := new RecorderWindow({});
    var tab := new RecorderWindowContent(false, w);
    tab.ProcessesStarted(false);
    ownerWhileRunning := tab.isMiddlewareOwner;
    tab.StopAllProcesses();
    ownerAfterStop := tab.isMiddlewareOwner;
    outcome := tab.StartRecord("Login");
  }

  /** A tab that found the middleware already running shares it and never owns it. */
  method SharedMiddlewareExample() returns (owner: bool)
    ensures !owner
  {
    var tab := new RecorderWindowContent(false, null);
    tab.ProcessesStarted(true);
    owner := tab.isMiddlewareOwner;
  }
}
