/**
  The stage store of RecorderWindow: stage numbers come from a counter that
  only grows, each stage holds its records, console lines are appended to the
  stage with the highest number, and the ignore list filters console lines.
*/
module StageStore {
  import opened Wrappers
  import opened Text
  import opened Seqs
  import opened Records

  /** The stage AddActionStage creates: one Input_Client row numbered like the stage. */
  function NewStage(stage: int, action: string, input: string, dataType: string): TestStage {
    TestStage([InputClient(stage, action, input, dataType)], [], [])
  }

  /** The Stage and Output properties AppendOutput finds by reflection on a record type. */
  datatype Accessors<!T> = Accessors(stageOf: T -> int, outputOf: T -> string, withOutput: (T, string) -> T)

  /** Setting Output reads back, keeps Stage, and a second setting replaces the first. */
  ghost predicate Lawful<T(!new)>(acc: Accessors<T>) {
    forall r: T, o: string :: acc.outputOf(acc.withOutput(r, o)) == o && acc.stageOf(acc.withOutput(r, o)) == acc.stageOf(r)
      && (forall o2: string :: acc.withOutput(acc.withOutput(r, o), o2) == acc.withOutput(r, o2))
  }

  const ClientAccess: Accessors<OutputClient> :=
    Accessors((r: OutputClient) => r.stage, (r: OutputClient) => r.output, (r: OutputClient, o: string) => r.(output := o))

  const ServerAccess: Accessors<OutputServer> :=
    Accessors((r: OutputServer) => r.stage, (r: OutputServer) => r.output, (r: OutputServer, o: string) => r.(output := o))

  lemma AccessorsLawful()
    ensures Lawful(ClientAccess) && Lawful(ServerAccess)
  {
  }

  /** The new Output of an existing record: the line alone when Output was empty, else a "\n" between. */
  function JoinOutput(current: string, data: string): string {
    if current == "" then data else current + "\n" + data
  }

  /**
    AppendOutput: the last record of the stage gets the line joined to its
    Output; without one, a created record holding the line is appended.
  */
  function AppendOutput<T>(records: seq<T>, stage: int, data: string, acc: Accessors<T>, created: T): (r: seq<T>)
    ensures |r| == |records| || |r| == |records| + 1
  {
    match LastIndexWhere(records, (x: T) => acc.stageOf(x) == stage)
    case Some(i) => records[i := acc.withOutput(records[i], JoinOutput(acc.outputOf(records[i]), data))]
    case None => records + [acc.withOutput(created, data)]
  }

  ghost predicate HasStage<T>(records: seq<T>, stage: int, acc: Accessors<T>) {
    exists j :: 0 <= j < |records| && acc.stageOf(records[j]) == stage
  }

  /**
    With a record of the stage present, the count is unchanged, the last such
    record gets the joined Output and every other record is unchanged.
  */
  lemma AppendToExisting<T>(records: seq<T>, stage: int, data: string, acc: Accessors<T>, created: T)
    requires HasStage(records, stage, acc)
    ensures var r := AppendOutput(records, stage, data, acc, created);
      && |r| == |records|
      && exists i :: (0 <= i < |records| && acc.stageOf(records[i]) == stage
        && (forall j :: i < j < |records| ==> acc.stageOf(records[j]) != stage)
        && r[i] == acc.withOutput(records[i], JoinOutput(acc.outputOf(records[i]), data))
        && (forall j :: 0 <= j < |records| && j != i ==> r[j] == records[j]))
  {
    var p := (x: T) => acc.stageOf(x) == stage;
    var j :| 0 <= j < |records| && acc.stageOf(records[j]) == stage;
    assert p(records[j]);
    var found := LastIndexWhere(records, p);
    assert found.Some?;
  }

  /** Without a record of the stage, exactly one record, the created one holding the line, is appended. */
  lemma AppendToNone<T>(records: seq<T>, stage: int, data: string, acc: Accessors<T>, created: T)
    requires !HasStage(records, stage, acc)
    ensures AppendOutput(records, stage, data, acc, created) == records + [acc.withOutput(created, data)]
  {
    var p := (x: T) => acc.stageOf(x) == stage;
    assert forall j :: 0 <= j < |records| ==> !p(records[j]);
  }

  /** Lines joined with "\n" (string.Join). */
  function JoinLines(lines: seq<string>): string {
    if |lines| == 0 then ""
    else if |lines| == 1 then lines[0]
    else JoinLines(lines[..|lines| - 1]) + "\n" + lines[|lines| - 1]
  }

  /** Appending console lines one at a time, in order. */
  function AppendAll<T>(records: seq<T>, stage: int, lines: seq<string>, acc: Accessors<T>, created: T): seq<T> {
    if lines == [] then records
    else AppendOutput(AppendAll(records, stage, lines[..|lines| - 1], acc, created), stage, lines[|lines| - 1], acc, created)
  }

  /** A join of non-empty lines is empty only when there are no lines. */
  lemma {:induction false} JoinLinesNonEmpty(lines: seq<string>)
    requires |lines| > 0 && forall i :: 0 <= i < |lines| ==> lines[i] != ""
    ensures JoinLines(lines) != ""
  {
    if |lines| > 1 {
      var j := JoinLines(lines);
      assert |j| >= |lines[|lines| - 1]|;
    }
  }

  /**
    Non-empty console lines sent to a stage that has no record yet end in a
    single new record whose Output is the lines joined with "\n".
  */
  lemma {:induction false} AppendAllJoins<T(!new)>(records: seq<T>, stage: int, lines: seq<string>, acc: Accessors<T>, created: T)
    requires Lawful(acc) && acc.stageOf(created) == stage
    requires !HasStage(records, stage, acc)
    requires |lines| > 0 && forall i :: 0 <= i < |lines| ==> lines[i] != ""
    ensures AppendAll(records, stage, lines, acc, created) == records + [acc.withOutput(created, JoinLines(lines))]
    decreases |lines|
  {
    var init := lines[..|lines| - 1];
    var last := lines[|lines| - 1];
    if init == [] {
      AppendToNone(records, stage, last, acc, created);
    } else {
      AppendAllJoins(records, stage, init, acc, created);
      var before := records + [acc.withOutput(created, JoinLines(init))];
      var p := (x: T) => acc.stageOf(x) == stage;
      assert p(before[|records|]);
      var found := LastIndexWhere(before, p);
      assert found == Some(|records|);
      JoinLinesNonEmpty(init);
      assert acc.outputOf(before[|records|]) == JoinLines(init);
    }
  }

  /** The stage a console line updates: AppendOutput on the client or the server collection. */
  function AppendToStage(s: TestStage, stage: int, isClient: bool, data: string): TestStage {
    if isClient then s.(outputClients := AppendOutput(s.outputClients, stage, data, ClientAccess, NewOutputClient(stage)))
    else s.(outputServers := AppendOutput(s.outputServers, stage, data, ServerAccess, NewOutputServer(stage)))
  }

  class RecorderWindow {
    var ignoreTexts: set<string>
    var stepCounter: int
    var selectedStageKey: int
    var testStages: map<int, TestStage>
    var stageKeys: seq<int>

    /** StageKeys lists the stage numbers of TestStages, ascending and without repetition. */
    ghost predicate Valid()
      reads this
    {
      StrictlyIncreasing(stageKeys) && forall k :: k in stageKeys <==> k in testStages
    }

    /** Every live stage number came from the counter. */
    ghost predicate Issued()
      reads this
    {
      0 <= stepCounter && forall k :: k in testStages ==> 1 <= k <= stepCounter
    }

    /** The constructor: the ignore list, then the initial "Connect" stage, number 1, selected. */
    constructor(ignore: set<string>)
      ensures ignoreTexts == ignore
      ensures stepCounter == 1 && stageKeys == [1] && selectedStageKey == 1
      ensures testStages == map[1 := NewStage(1, "Connect", "", "")]
      ensures Valid() && Issued()
    {
      ignoreTexts := ignore;
      stepCounter := 0;
      selectedStageKey := -1;
      testStages := map[];
      stageKeys := [];
      new;
      AddActionStage("Connect", "", "");
    }

    /** The SelectedStageKey setter (the SelectedStageData it also sets is not modelled). */
    method SetSelectedStageKey(value: int)
      modifies this
      ensures selectedStageKey == value
      ensures ignoreTexts == old(ignoreTexts) && stepCounter == old(stepCounter)
      ensures testStages == old(testStages) && stageKeys == old(stageKeys)
    {
      if selectedStageKey != value {
        selectedStageKey := value;
      }
    }

    /**
      AddActionStage: the counter grows by one and its new value numbers a new
      stage holding one Input_Client, appended to StageKeys and selected.
    */
    method AddActionStage(action: string, input: string, dataType: string)
      modifies this
      ensures stepCounter == old(stepCounter) + 1
      ensures testStages == old(testStages)[stepCounter := NewStage(stepCounter, action, input, dataType)]
      ensures stageKeys == old(stageKeys) + [stepCounter]
      ensures selectedStageKey == stepCounter
      ensures ignoreTexts == old(ignoreTexts)
      ensures old(Valid() && Issued()) ==> Valid() && Issued()
      ensures old(Issued()) ==> stepCounter !in old(testStages)
    {
      stepCounter := stepCounter + 1;
      var stage := NewStage(stepCounter, action, input, dataType);
      testStages := testStages[stepCounter := stage];
      ghost var keys := stageKeys;
      stageKeys := stageKeys + [stepCounter];
      SetSelectedStageKey(stepCounter);
      if old(Valid() && Issued()) {
        assert forall k :: k in keys ==> k < stepCounter;
        forall i, j | 0 <= i < j < |stageKeys| ensures stageKeys[i] < stageKeys[j] {
          assert stageKeys[i] == keys[i] && keys[i] in keys;
        }
        assert forall k :: k in stageKeys <==> k in keys || k == stepCounter;
      }
    }

    /** ShouldIgnore: a non-empty line that contains some ignore text, ignoring ASCII case. */
    function ShouldIgnore(line: string): (r: bool)
      reads this
      ensures r <==> line != "" && exists t :: t in ignoreTexts && exists i :: OccursAt(Lower(line), Lower(t), i)
    {
      ContainsIgnoreCaseAll(line, ignoreTexts);
      if line == "" || |ignoreTexts| == 0 then false
      else exists t :: t in ignoreTexts && ContainsIgnoreCase(line, t)
    }

    /**
      HandleProcessOutput: with at least one stage and a line that is not
      ignored, the line goes to the stage with the highest number, client
      lines to its OutputClients and server lines to its OutputServers.
    */
    method HandleProcessOutput(isClient: bool, data: string)
      modifies this
      ensures ignoreTexts == old(ignoreTexts) && stepCounter == old(stepCounter)
      ensures selectedStageKey == old(selectedStageKey) && stageKeys == old(stageKeys)
      ensures testStages == if old(testStages) == map[] || ShouldIgnore(data) then old(testStages)
        else var m := Max(old(testStages).Keys); old(testStages)[m := AppendToStage(old(testStages)[m], m, isClient, data)]
      ensures old(Valid()) ==> Valid()
      ensures old(Issued()) ==> Issued()
    {
      if testStages == map[] {
        return;
      }
      if ShouldIgnore(data) {
        return;
      }
      var currentStage := Max(testStages.Keys);
      var testStage := testStages[currentStage];
      testStages := testStages[currentStage := AppendToStage(testStage, currentStage, isClient, data)];
    }

    /**
      BtnDeleteStage_Click once the dialog is answered: unless the selected
      number is positive and live and the deletion is confirmed nothing
      changes; otherwise the stage leaves TestStages and StageKeys, and the
      first remaining number, if any, is selected. The counter is untouched.
    */
    method DeleteStage(confirmed: bool)
      modifies this
      ensures ignoreTexts == old(ignoreTexts) && stepCounter == old(stepCounter)
      ensures var k := old(selectedStageKey);
        if k <= 0 || k !in old(testStages) || !confirmed then
          testStages == old(testStages) && stageKeys == old(stageKeys) && selectedStageKey == k
        else
          && testStages == old(testStages) - {k}
          && stageKeys == RemoveFirst(old(stageKeys), k)
          && selectedStageKey == if |stageKeys| > 0 then stageKeys[0] else k
      ensures old(Valid()) ==> Valid()
      ensures old(Issued()) ==> Issued()
    {
      if selectedStageKey <= 0 || selectedStageKey !in testStages {
        return;
      }
      if confirmed {
        var k := selectedStageKey;
        testStages := testStages - {k};
        ghost var keys := stageKeys;
        stageKeys := RemoveFirst(stageKeys, k);
        if old(Valid()) {
          RemoveFirstIncreasing(keys, k);
          RemoveFirstMembers(keys, k);
        }
        if |stageKeys| > 0 {
          SetSelectedStageKey(stageKeys[0]);
        }
      }
    }
  }

  /** Each ignore text is contained exactly when it occurs at some position of the line, case folded. */
  lemma ContainsIgnoreCaseAll(line: string, ignore: set<string>)
    ensures forall t :: t in ignore ==> (ContainsIgnoreCase(line, t) <==> exists i :: OccursAt(Lower(line), Lower(t), i))
  {
    forall t | t in ignore
      ensures ContainsIgnoreCase(line, t) <==> exists i :: OccursAt(Lower(line), Lower(t), i)
    {
      ContainsIff(Lower(line), Lower(t));
    }
  }

  /** Lines that differ only in ASCII case are ignored alike. */
  lemma IgnoreIsCaseInsensitive(w: RecorderWindow, line: string)
    ensures w.ShouldIgnore(Lower(line)) == w.ShouldIgnore(line)
  {
    LowerIdempotent(line);
  }

  /**
    Numbering example: stages 1 (Connect), 2 and 3; deleting stage 1 and
    declaring another gives it number 4, not the freed 1.
  */
  method NumberingExample() returns (keys: seq<int>, selected: int)
    ensures keys == [2, 3, 4] && selected == 4
  {
    var w := new RecorderWindow({});
    w.AddActionStage("Login", "", "");
    w.AddActionStage("Query", "", "");
    w.SetSelectedStageKey(1);
    w.DeleteStage(true);
    assert w.stageKeys == [2, 3];
    w.AddActionStage("Logout", "", "");
    keys := w.stageKeys;
    selected := w.selectedStageKey;
  }

  /** Deleting the only stage is allowed and leaves no stage, with the deleted number still selected. */
  method DeleteLastExample() returns (count: int, selected: int)
    ensures count == 0 && selected == 1
  {
    var w := new RecorderWindow({});
    w.DeleteStage(true);
    count := |w.stageKeys|;
    selected := w.selectedStageKey;
  }
}
