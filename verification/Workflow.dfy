// The workflow executor (internal/server/api/handlers_workflow.go:239-614): a loop over the steps that
// hands each step's output to the next. Everything outside (store, network, clock) is a parameter.
module Workflow {
  import opened Collections
  import Text

  // Decoded JSON.
  datatype Value = Nil | Bool(b: bool) | Num(n: real) | Str(s: string) | List(items: seq<Value>) | Obj(fields: map<string, Value>)

  type Fields = map<string, Value>

  // ---- Paths into nested values ----

  // getNestedValue: split at the first dot, look up the head, recurse on the tail.
  function GetNestedValue(data: Fields, path: string): Value
    decreases |path|
  {
    var i := Text.Index(path, ".");
    var head := if i < 0 then path else path[..i];
    if head !in data then Nil
    else if i < 0 then data[head]
    else if data[head].Obj? then GetNestedValue(data[head].fields, path[i + 1..])
    else Nil
  }

  function Walk(v: Value, parts: seq<string>): Value {
    if parts == [] then v
    else if v.Obj? && parts[0] in v.fields then Walk(v.fields[parts[0]], parts[1..])
    else Nil
  }

  lemma {:induction false} DotAt(path: string)
    ensures var i := Text.Index(path, ".");
            if i < 0 then '.' !in path else '.' !in path[..i] && path == path[..i] + ['.'] + path[i + 1..]
  {
    Text.IndexFirst(path, ".");
    var i := Text.Index(path, ".");
    var head := if i < 0 then path else path[..i];
    forall k | 0 <= k < |head|
      ensures head[k] != '.'
    {
      assert !Text.Occurs(path, ".", k);
      assert path[k..k + 1] == [path[k]];
    }
    if i >= 0 {
      assert path[i..i + 1] == ".";
    }
  }

  // A path looks up exactly what walking its dot-separated parts from the top reaches.
  lemma {:induction false} NestedIsWalk(data: Fields, path: string)
    ensures GetNestedValue(data, path) == Walk(Obj(data), Text.SplitOn(path, '.'))
    decreases |path|
  {
    DotAt(path);
    var i := Text.Index(path, ".");
    if i < 0 {
      Text.SplitOnAbsent(path, '.');
      assert Text.SplitOn(path, '.')[1..] == [];
    } else {
      var head, tail := path[..i], path[i + 1..];
      Text.SplitOnFirst(head, '.', tail);
      assert Text.SplitOn(path, '.')[1..] == Text.SplitOn(tail, '.');
      if head in data && data[head].Obj? {
        NestedIsWalk(data[head].fields, tail);
      }
    }
  }

  // ---- Conditions ----

  // `show` is fmt.Sprintf("%v", ...).
  predicate EvaluateCondition(show: Value -> string, field: Value, operator: string, expected: Value) {
    if operator == "eq" || operator == "equals" then show(field) == show(expected)
    else if operator == "neq" || operator == "not_equals" then show(field) != show(expected)
    else if operator == "contains" then Text.Contains(show(field), show(expected))
    else if operator == "exists" then field != Nil
    else false
  }

  // Each operator means what its name says, on printed values; any other operator is never met.
  lemma {:induction false} OperatorsExactly(show: Value -> string, field: Value, operator: string, expected: Value)
    ensures operator == "eq" || operator == "equals" ==>
              (EvaluateCondition(show, field, operator, expected) <==> show(field) == show(expected))
    ensures operator == "neq" || operator == "not_equals" ==>
              (EvaluateCondition(show, field, operator, expected) <==> show(field) != show(expected))
    ensures operator == "contains" ==>
              (EvaluateCondition(show, field, operator, expected)
               <==> exists i :: 0 <= i <= |show(field)| && Text.Occurs(show(field), show(expected), i))
    ensures operator == "exists" ==> (EvaluateCondition(show, field, operator, expected) <==> field != Nil)
    ensures operator !in {"eq", "equals", "neq", "not_equals", "contains", "exists"}
            ==> !EvaluateCondition(show, field, operator, expected)
  {
    Text.IndexFirst(show(field), show(expected));
  }

  // neq is the negation of eq, whichever spelling; what equals also contains; and `exists` holds of a path
  // if and only if the walk ends at something other than null.
  lemma {:induction false} ConditionLaws(show: Value -> string, field: Value, expected: Value, data: Fields, path: string)
    ensures EvaluateCondition(show, field, "neq", expected) == !EvaluateCondition(show, field, "eq", expected)
    ensures EvaluateCondition(show, field, "not_equals", expected) == !EvaluateCondition(show, field, "equals", expected)
    ensures EvaluateCondition(show, field, "eq", expected) ==> EvaluateCondition(show, field, "contains", expected)
    ensures EvaluateCondition(show, GetNestedValue(data, path), "exists", expected)
            <==> Walk(Obj(data), Text.SplitOn(path, '.')) != Nil
  {
    NestedIsWalk(data, path);
    var s, t := show(field), show(expected);
    Text.IndexFirst(s, t);
    assert s == t ==> Text.Occurs(s, t, 0);
  }

  // ---- One step ----

  datatype Kind =
    | SendMessage | SendDM | CreateChannel | CreateTask | UpdateTask | SendNotification | HttpRequest | Conditional | Delay
    | Unknown(name: string)

  function KindName(kind: Kind): string {
    match kind
    case SendMessage => "send_message"
    case SendDM => "send_dm"
    case CreateChannel => "create_channel"
    case CreateTask => "create_task"
    case UpdateTask => "update_task"
    case SendNotification => "send_notification"
    case HttpRequest => "http_request"
    case Conditional => "conditional"
    case Delay => "delay"
    case Unknown(name) => name
  }

  datatype Step = Step(kind: Kind, config: Option<Config>, continueOnError: bool)

  // The parts of a decoded configuration that decide anything here; None when it does not decode.
  datatype Config = Config(field: string, operator: string, value: Value, seconds: int)

  datatype Service = Done(id: string) | Refused(err: string)
  datatype Lookup = Found | Missing | LookupFailed(err: string)
  datatype Http = BadUrl(err: string) | NoAnswer(err: string) | Response(code: int, body: string)

  // What the outside answers while a step executes.
  datatype Calls = Calls(create: Service, lookup: Lookup, createDM: Service, update: Service, http: Http)

  datatype World = World(expired: bool, panics: bool, calls: Calls)

  // What a step adds to its record, and its output.
  datatype Effect = Effect(fields: Fields, output: Fields)

  function Failure(err: string): Effect { Effect(map["status" := Str("failed"), "error" := Str(err)], map[]) }

  function Both(fields: Fields): Effect { Effect(fields, fields) }

  function CreateEffect(key: string, call: Service): Effect {
    match call
    case Done(id) => Both(map[key := Str(id)])
    case Refused(err) => Failure(err)
  }

  const MALFORMED := "invalid config"

  function UnknownEffect(name: string): Effect {
    Effect(map["status" := Str("skipped"), "error" := Str("unknown step type: " + name)], map[])
  }

  function DirectMessageEffect(calls: Calls): Effect {
    if calls.lookup.LookupFailed? then Failure(calls.lookup.err)
    else if calls.lookup.Missing? && calls.createDM.Refused? then Failure(calls.createDM.err)
    else CreateEffect("message_id", calls.create)
  }

  // An updated task is recorded, but not put out.
  function TaskEffect(calls: Calls): Effect {
    if !calls.lookup.Found? then Failure("task not found")
    else if calls.update.Refused? then Failure(calls.update.err)
    else Effect(map["task_id" := Str(calls.update.id)], map[])
  }

  function HttpEffect(http: Http): Effect {
    if http.Response? then Both(map["status_code" := Num(http.code as real), "response" := Str(http.body)])
    else Failure(http.err)
  }

  function ConditionEffect(met: bool): Effect {
    Effect(if met then map["condition_met" := Bool(met)] else map["condition_met" := Bool(met), "status" := Str("skipped")],
           map["condition_met" := Bool(met)])
  }

  function StepEffect(show: Value -> string, step: Step, calls: Calls, prev: Fields): Effect {
    if step.kind.Unknown? then UnknownEffect(step.kind.name)
    else if step.config.None? then Failure(MALFORMED)
    else
      match step.kind
      case SendMessage => CreateEffect("message_id", calls.create)
      case SendDM => DirectMessageEffect(calls)
      case CreateChannel => CreateEffect("channel_id", calls.create)
      case CreateTask => CreateEffect("task_id", calls.create)
      case UpdateTask => TaskEffect(calls)
      case SendNotification => CreateEffect("notification_id", calls.create)
      case HttpRequest => HttpEffect(calls.http)
      case Conditional => ConditionEffect(ConditionMet(show, step.config.value, prev))
      case Delay => Both(map[])
  }

  predicate ConditionMet(show: Value -> string, c: Config, prev: Fields) {
    EvaluateCondition(show, if c.field == "" then Nil else GetNestedValue(map["prev" := Obj(prev)], c.field),
                      c.operator, c.value)
  }

  // A record as the loop starts it.
  function Started(i: nat, step: Step, prev: Fields): Fields {
    map["step" := Num(i as real), "type" := Str(KindName(step.kind)), "status" := Str("completed")]
    + if prev == map[] then map[] else map["prev_output" := Obj(prev)]
  }

  function Record(show: Value -> string, i: nat, step: Step, calls: Calls, prev: Fields): Fields {
    Started(i, step, prev) + StepEffect(show, step, calls, prev).fields
  }

  predicate Failed(record: Fields) { "status" in record && record["status"] == Str("failed") }

  // What a step may add to its record: never its index, type or input; a failed step has no output; what it
  // puts out is added to the record too.
  lemma {:induction false} EffectContract(show: Value -> string, step: Step, calls: Calls, prev: Fields)
    ensures var e := StepEffect(show, step, calls, prev);
            && "step" !in e.fields && "type" !in e.fields && "prev_output" !in e.fields
            && ("status" in e.fields ==> e.fields["status"] in {Str("failed"), Str("skipped")})
            && (Failed(e.fields) ==> e.output == map[] && "error" in e.fields)
            && (forall k :: k in e.output ==> k in e.fields && e.fields[k] == e.output[k])
  {
    hide ConditionMet;
  }

  // The contract of a step: its record keeps its index, type and input; it is completed, failed or skipped;
  // a failed step has no output; and whatever it puts out is also in its record.
  lemma {:induction false} StepContract(show: Value -> string, i: nat, step: Step, calls: Calls, prev: Fields)
    ensures var r := Record(show, i, step, calls, prev);
            var output := StepEffect(show, step, calls, prev).output;
            && "step" in r && r["step"] == Num(i as real) && "type" in r && r["type"] == Str(KindName(step.kind))
            && (prev != map[] ==> "prev_output" in r && r["prev_output"] == Obj(prev))
            && (prev == map[] ==> "prev_output" !in r)
            && "status" in r && r["status"] in {Str("completed"), Str("failed"), Str("skipped")}
            && (Failed(r) ==> output == map[] && "error" in r)
            && (forall k :: k in output ==> k in r && r[k] == output[k])
  {
    EffectContract(show, step, calls, prev);
    hide StepEffect;
  }

  // When a step fails: its configuration does not decode, or the one thing it asks of the outside is refused.
  lemma {:induction false} StepFailsExactly(show: Value -> string, i: nat, step: Step, calls: Calls, prev: Fields)
    ensures var r := Record(show, i, step, calls, prev);
            ("status" in r && r["status"] == Str("failed")) <==>
              && !step.kind.Unknown?
              && (step.config.None? ||
                  match step.kind
                  case SendDM => calls.lookup.LookupFailed? || (calls.lookup.Missing? && calls.createDM.Refused?)
                                 || calls.create.Refused?
                  case UpdateTask => !calls.lookup.Found? || calls.update.Refused?
                  case HttpRequest => !calls.http.Response?
                  case Conditional => false
                  case Delay => false
                  case _ => calls.create.Refused?)
  {
    hide ConditionMet;
  }

  // What a step that does not fail puts out for the next one, kind by kind.
  lemma {:induction false} StepOutputExactly(show: Value -> string, i: nat, step: Step, calls: Calls, prev: Fields)
    requires !Failed(Record(show, i, step, calls, prev))
    ensures var output := StepEffect(show, step, calls, prev).output;
            match step.kind
            case SendMessage => output == map["message_id" := Str(calls.create.id)]
            case SendDM => output == map["message_id" := Str(calls.create.id)]
            case CreateChannel => output == map["channel_id" := Str(calls.create.id)]
            case CreateTask => output == map["task_id" := Str(calls.create.id)]
            case SendNotification => output == map["notification_id" := Str(calls.create.id)]
            case HttpRequest => output == map["status_code" := Num(calls.http.code as real), "response" := Str(calls.http.body)]
            case Conditional => output == map["condition_met" := Bool(ConditionMet(show, step.config.value, prev))]
            case UpdateTask => output == map[] && "task_id" in Record(show, i, step, calls, prev)
            case Delay => output == map[]
            case Unknown(name) => output == map[] && Record(show, i, step, calls, prev)["status"] == Str("skipped")
  {
    hide ConditionMet;
  }

  // A condition looks the field up under "prev" in the previous output; without a field it sees null.
  lemma {:induction false} ConditionReadsPrevious(show: Value -> string, c: Config, prev: Fields, key: string)
    requires '.' !in key && c.field == "prev." + key
    ensures c.operator == "exists" ==> (ConditionMet(show, c, prev) <==> key in prev && prev[key] != Nil)
    ensures c.operator == "eq" ==> (ConditionMet(show, c, prev) <==> show(if key in prev then prev[key] else Nil) == show(c.value))
  {
    PreviousField(prev, key);
    assert c.field != "";
    hide GetNestedValue;
  }

  lemma {:induction false} PreviousField(prev: Fields, key: string)
    requires '.' !in key
    ensures GetNestedValue(map["prev" := Obj(prev)], "prev." + key) == if key in prev then prev[key] else Nil
  {
    var head := "prev";
    assert head + ['.'] + key == "prev." + key;
    Text.SplitOnFirst(head, '.', key);
    Text.SplitOnAbsent(key, '.');
    NestedIsWalk(map["prev" := Obj(prev)], "prev." + key);
    WalkTwo(prev, head, key);
    hide *;
  }

  lemma {:induction false} WalkTwo(fields: Fields, head: string, key: string)
    ensures Walk(Obj(map[head := Obj(fields)]), [head] + [key]) == if key in fields then fields[key] else Nil
  {
    assert ([head] + [key])[1..] == [key] && [key][1..] == [];
    assert Walk(Obj(fields), [key]) == if key in fields then fields[key] else Nil;
  }

  // A well-formed condition never fails its step: a false one only marks its own record skipped.
  lemma {:induction false} ConditionalNeverFails(show: Value -> string, i: nat, step: Step, calls: Calls, prev: Fields)
    requires step.kind == Conditional && step.config.Some?
    ensures var r := Record(show, i, step, calls, prev);
            && !Failed(r)
            && (r["status"] == Str("skipped") <==> !ConditionMet(show, step.config.value, prev))
  {
  }

  // A step's record, updated in place while the step executes.
  class ResultMap {
    var fields: Fields

    constructor (fields: Fields)
      ensures this.fields == fields
    {
      this.fields := fields;
    }

    method Put(key: string, value: Value)
      modifies this
      ensures fields == old(fields)[key := value]
    {
      fields := fields[key := value];
    }

    method Fail(err: string) returns (output: Fields)
      modifies this
      ensures fields == old(fields) + Failure(err).fields && output == Failure(err).output
    {
      Put("status", Str("failed"));
      Put("error", Str(err));
      output := map[];
    }

    // The common shape of the steps that create one thing.
    method Create(key: string, call: Service) returns (output: Fields)
      modifies this
      ensures fields == old(fields) + CreateEffect(key, call).fields && output == CreateEffect(key, call).output
    {
      output := map[];
      match call
      case Done(id) =>
        Put(key, Str(id));
        output := output[key := Str(id)];
      case Refused(err) => output := Fail(err);
    }
  }

  method ExecuteStep(show: Value -> string, step: Step, calls: Calls, result: ResultMap, prev: Fields)
    returns (output: Fields)
    modifies result
    ensures result.fields == old(result.fields) + StepEffect(show, step, calls, prev).fields
    ensures output == StepEffect(show, step, calls, prev).output
  {
    hide UnknownEffect, Failure, CreateEffect, DirectMessageEffect, TaskEffect, HttpEffect, ConditionEffect, ConditionMet;
    if step.kind.Unknown? {
      output := Skip(step.kind.name, result);
      return;
    }
    if step.config.None? {
      output := result.Fail(MALFORMED);
      return;
    }
    match step.kind {
      case SendMessage => output := result.Create("message_id", calls.create);
      case SendDM => output := SendToDM(calls, result);
      case CreateChannel => output := result.Create("channel_id", calls.create);
      case CreateTask => output := result.Create("task_id", calls.create);
      case UpdateTask => output := ChangeTask(calls, result);
      case SendNotification => output := result.Create("notification_id", calls.create);
      case HttpRequest => output := Request(calls.http, result);
      case Conditional => output := Decide(show, step.config.value, result, prev);
      case Delay => output := map[];
    }
  }

  method Skip(name: string, result: ResultMap) returns (output: Fields)
    modifies result
    ensures result.fields == old(result.fields) + UnknownEffect(name).fields && output == UnknownEffect(name).output
  {
    result.Put("status", Str("skipped"));
    result.Put("error", Str("unknown step type: " + name));
    output := map[];
  }

  method ChangeTask(calls: Calls, result: ResultMap) returns (output: Fields)
    modifies result
    ensures result.fields == old(result.fields) + TaskEffect(calls).fields && output == TaskEffect(calls).output
  {
    output := map[];
    if !calls.lookup.Found? {
      output := result.Fail("task not found");
    } else if calls.update.Refused? {
      output := result.Fail(calls.update.err);
    } else {
      result.Put("task_id", Str(calls.update.id));
    }
  }

  method SendToDM(calls: Calls, result: ResultMap) returns (output: Fields)
    modifies result
    ensures result.fields == old(result.fields) + DirectMessageEffect(calls).fields
    ensures output == DirectMessageEffect(calls).output
  {
    if calls.lookup.LookupFailed? {
      output := result.Fail(calls.lookup.err);
      return;
    }
    if calls.lookup.Missing? && calls.createDM.Refused? {
      output := result.Fail(calls.createDM.err);
      return;
    }
    output := result.Create("message_id", calls.create);
  }

  method Request(http: Http, result: ResultMap) returns (output: Fields)
    modifies result
    ensures result.fields == old(result.fields) + HttpEffect(http).fields && output == HttpEffect(http).output
  {
    if !http.Response? {
      output := result.Fail(http.err);
      return;
    }
    result.Put("status_code", Num(http.code as real));
    result.Put("response", Str(http.body));
    output := map["status_code" := Num(http.code as real), "response" := Str(http.body)];
  }

  method Decide(show: Value -> string, c: Config, result: ResultMap, prev: Fields) returns (output: Fields)
    modifies result
    ensures var effect := ConditionEffect(ConditionMet(show, c, prev));
            result.fields == old(result.fields) + effect.fields && output == effect.output
  {
    var fieldValue := Nil;
    if c.field != "" {
      fieldValue := GetNestedValue(map["prev" := Obj(prev)], c.field);
    }
    var met := EvaluateCondition(show, fieldValue, c.operator, c.value);
    assert met == ConditionMet(show, c, prev);
    hide ConditionMet, EvaluateCondition, GetNestedValue;
    result.Put("condition_met", Bool(met));
    output := map["condition_met" := Bool(met)];
    if !met {
      result.Put("status", Str("skipped"));
    }
  }

  // ---- The loop ----

  datatype End = Finished | Stopped | TimedOut | Panicked

  // The records so far, the output of every step that executed, and why it ended.
  datatype Trace = Trace(records: seq<Fields>, outputs: seq<Fields>, end: End)

  function Timeout(i: nat, step: Step): Fields {
    map["step" := Num(i as real), "type" := Str(KindName(step.kind)), "status" := Str("skipped"), "error" := Str("timeout")]
  }

  function Last(outputs: seq<Fields>, prev: Fields): Fields {
    if outputs == [] then prev else outputs[|outputs| - 1]
  }

  // One turn of the loop; Finished when it goes on to the next.
  function Turn(show: Value -> string, i: nat, step: Step, world: World, prev: Fields): Trace {
    if world.expired then Trace([Timeout(i, step)], [], TimedOut)
    else if world.panics then Trace([], [], Panicked)
    else
      var record := Record(show, i, step, world.calls, prev);
      Trace([record], [StepEffect(show, step, world.calls, prev).output],
            if Failed(record) && !step.continueOnError then Stopped else Finished)
  }

  function Then(a: Trace, b: Trace): Trace {
    if a.end != Finished then a else Trace(a.records + b.records, a.outputs + b.outputs, b.end)
  }

  function RunFrom(show: Value -> string, i: nat, steps: seq<Step>, worlds: seq<World>, prev: Fields): Trace
    requires |steps| == |worlds|
    decreases |steps|
  {
    if steps == [] then Trace([], [], Finished)
    else
      var turn := Turn(show, i, steps[0], worlds[0], prev);
      if turn.end != Finished then turn
      else Then(turn, RunFrom(show, i + 1, steps[1..], worlds[1..], Last(turn.outputs, prev)))
  }

  // ---- What a run looks like, by index ----

  // The input of step k: the output of the step before.
  function Input(outputs: seq<Fields>, prev: Fields, k: nat): Fields
    requires k <= |outputs|
  {
    if k == 0 then prev else outputs[k - 1]
  }

  ghost predicate Executed(t: Trace, show: Value -> string, i: nat, steps: seq<Step>, worlds: seq<World>, prev: Fields, k: nat)
    requires |steps| == |worlds|
  {
    && k < |t.outputs| && k < |t.records| && k < |steps|
    && !worlds[k].expired && !worlds[k].panics
    && t.records[k] == Record(show, i + k, steps[k], worlds[k].calls, Input(t.outputs, prev, k))
    && t.outputs[k] == StepEffect(show, steps[k], worlds[k].calls, Input(t.outputs, prev, k)).output
  }

  // A record that ends the run.
  predicate Stops(record: Fields, step: Step) { Failed(record) && !step.continueOnError }

  ghost predicate AllExecuted(t: Trace, show: Value -> string, i: nat, steps: seq<Step>, worlds: seq<World>, prev: Fields)
    requires |steps| == |worlds|
  {
    forall k :: 0 <= k < |t.outputs| ==> Executed(t, show, i, steps, worlds, prev, k)
  }

  // A stopping record is the last one, and there is one exactly when the run stopped.
  ghost predicate StopsOnlyAtEnd(t: Trace, steps: seq<Step>) {
    && |t.outputs| <= |steps| && |t.outputs| <= |t.records|
    && (forall k :: 0 <= k < |t.outputs| ==> (Stops(t.records[k], steps[k]) <==> k == |t.outputs| - 1 && t.end == Stopped))
    && (t.end == Stopped ==> |t.outputs| > 0)
  }

  ghost predicate EndFits(t: Trace, i: nat, steps: seq<Step>, worlds: seq<World>)
    requires |steps| == |worlds|
  {
    var n := |t.outputs|;
    && n <= |steps|
    && |t.records| == (if t.end == TimedOut then n + 1 else n)
    && (t.end == Finished ==> n == |steps|)
    && (t.end == TimedOut ==> n < |steps| && worlds[n].expired && t.records[n] == Timeout(i + n, steps[n]))
    && (t.end == Panicked ==> n < |steps| && !worlds[n].expired && worlds[n].panics)
  }

  ghost predicate Explains(t: Trace, show: Value -> string, i: nat, steps: seq<Step>, worlds: seq<World>, prev: Fields)
    requires |steps| == |worlds|
  {
    && AllExecuted(t, show, i, steps, worlds, prev)
    && StopsOnlyAtEnd(t, steps)
    && EndFits(t, i, steps, worlds)
  }

  lemma {:induction false} TurnExplained(show: Value -> string, i: nat, step: Step, world: World, prev: Fields)
    ensures Explains(Turn(show, i, step, world, prev), show, i, [step], [world], prev)
  {
    hide Record, StepEffect, Failed;
  }

  lemma {:induction false} ExplainedTurnMore(t: Trace, show: Value -> string, i: nat, xs: seq<Step>, wx: seq<World>, prev: Fields,
                          ys: seq<Step>, wy: seq<World>, k: nat)
    requires |xs| == |wx| && |ys| == |wy| && Executed(t, show, i, xs, wx, prev, k)
    ensures Executed(t, show, i, xs + ys, wx + wy, prev, k)
  {
    hide Record, StepEffect;
    assert (xs + ys)[k] == xs[k] && (wx + wy)[k] == wx[k];
  }

  // What ended early explains the longer run as well.
  lemma {:induction false} ExplainsLonger(a: Trace, show: Value -> string, i: nat, xs: seq<Step>, wx: seq<World>, prev: Fields,
                       ys: seq<Step>, wy: seq<World>)
    requires |xs| == |wx| && |ys| == |wy| && Explains(a, show, i, xs, wx, prev) && a.end != Finished
    ensures Explains(a, show, i, xs + ys, wx + wy, prev)
  {
    forall k | 0 <= k < |a.outputs|
      ensures Executed(a, show, i, xs + ys, wx + wy, prev, k)
    {
      assert Executed(a, show, i, xs, wx, prev, k);
      ExplainedTurnMore(a, show, i, xs, wx, prev, ys, wy, k);
    }
    hide Executed, Timeout, Stops;
  }

  lemma {:induction false} ExecutedLater(a: Trace, b: Trace, show: Value -> string, i: nat, xs: seq<Step>, wx: seq<World>, prev: Fields,
                      ys: seq<Step>, wy: seq<World>, k: nat)
    requires |xs| == |wx| == |a.outputs| == |a.records| && |ys| == |wy| && a.end == Finished
    requires Executed(b, show, i + |xs|, ys, wy, Last(a.outputs, prev), k)
    ensures Executed(Then(a, b), show, i, xs + ys, wx + wy, prev, |xs| + k)
  {
    hide Record, StepEffect;
    var t, n := Then(a, b), |xs|;
    assert Input(t.outputs, prev, n + k) == Input(b.outputs, Last(a.outputs, prev), k);
    assert (xs + ys)[n + k] == ys[k] && (wx + wy)[n + k] == wy[k];
    assert t.records[n + k] == b.records[k] && t.outputs[n + k] == b.outputs[k];
  }

  lemma {:induction false} ExecutedEarlier(a: Trace, b: Trace, show: Value -> string, i: nat, xs: seq<Step>, wx: seq<World>, prev: Fields,
                        ys: seq<Step>, wy: seq<World>, k: nat)
    requires |xs| == |wx| == |a.outputs| == |a.records| && |ys| == |wy| && a.end == Finished
    requires Executed(a, show, i, xs, wx, prev, k)
    ensures Executed(Then(a, b), show, i, xs + ys, wx + wy, prev, k)
  {
    hide Record, StepEffect;
    var t := Then(a, b);
    assert Input(t.outputs, prev, k) == Input(a.outputs, prev, k);
    assert (xs + ys)[k] == xs[k] && (wx + wy)[k] == wx[k];
  }

  lemma {:induction false} ThenExecutes(a: Trace, b: Trace, show: Value -> string, i: nat, xs: seq<Step>, wx: seq<World>, prev: Fields,
                     ys: seq<Step>, wy: seq<World>)
    requires |xs| == |wx| == |a.outputs| == |a.records| && |ys| == |wy| && a.end == Finished
    requires AllExecuted(a, show, i, xs, wx, prev) && AllExecuted(b, show, i + |xs|, ys, wy, Last(a.outputs, prev))
    ensures AllExecuted(Then(a, b), show, i, xs + ys, wx + wy, prev)
  {
    hide Executed, Last;
    var t, n := Then(a, b), |xs|;
    forall k | 0 <= k < |t.outputs|
      ensures Executed(t, show, i, xs + ys, wx + wy, prev, k)
    {
      if k < n {
        ExecutedEarlier(a, b, show, i, xs, wx, prev, ys, wy, k);
      } else {
        ExecutedLater(a, b, show, i, xs, wx, prev, ys, wy, k - n);
      }
    }
  }

  lemma {:induction false} ThenStops(a: Trace, b: Trace, xs: seq<Step>, ys: seq<Step>)
    requires |xs| == |a.outputs| == |a.records| && a.end == Finished
    requires StopsOnlyAtEnd(a, xs) && StopsOnlyAtEnd(b, ys)
    ensures StopsOnlyAtEnd(Then(a, b), xs + ys)
  {
    hide Stops;
    var t, n := Then(a, b), |xs|;
    forall k | 0 <= k < |t.outputs|
      ensures Stops(t.records[k], (xs + ys)[k]) <==> k == |t.outputs| - 1 && t.end == Stopped
    {
      if k >= n {
        assert t.records[k] == b.records[k - n] && (xs + ys)[k] == ys[k - n];
      } else {
        assert t.records[k] == a.records[k] && (xs + ys)[k] == xs[k];
      }
    }
  }

  lemma {:induction false} ThenEnds(a: Trace, b: Trace, i: nat, xs: seq<Step>, wx: seq<World>, ys: seq<Step>, wy: seq<World>)
    requires |xs| == |wx| && |ys| == |wy| && a.end == Finished && EndFits(a, i, xs, wx) && EndFits(b, i + |xs|, ys, wy)
    ensures EndFits(Then(a, b), i, xs + ys, wx + wy)
  {
    hide Timeout;
    if |b.outputs| < |ys| {
      var n := |xs| + |b.outputs|;
      assert (xs + ys)[n] == ys[|b.outputs|] && (wx + wy)[n] == wy[|b.outputs|];
    }
  }

  lemma {:induction false} ExplainsThen(a: Trace, b: Trace, show: Value -> string, i: nat, xs: seq<Step>, wx: seq<World>, prev: Fields,
                     ys: seq<Step>, wy: seq<World>)
    requires |xs| == |wx| && |ys| == |wy| && Explains(a, show, i, xs, wx, prev) && a.end == Finished
    requires Explains(b, show, i + |xs|, ys, wy, Last(a.outputs, prev))
    ensures Explains(Then(a, b), show, i, xs + ys, wx + wy, prev)
  {
    assert |a.outputs| == |a.records| == |xs|;
    hide AllExecuted, StopsOnlyAtEnd, EndFits, Then, Last;
    ThenExecutes(a, b, show, i, xs, wx, prev, ys, wy);
    ThenStops(a, b, xs, ys);
    ThenEnds(a, b, i, xs, wx, ys, wy);
  }

  // Each step is given exactly the output of the step before it, record k carries index i + k, the records
  // are a prefix of the steps, and execution ends right after the first failed step that does not continue
  // on error, at the first expired check, or at the first panic, whichever comes first.
  lemma {:induction false} RunExplained(show: Value -> string, i: nat, steps: seq<Step>, worlds: seq<World>, prev: Fields)
    requires |steps| == |worlds|
    ensures Explains(RunFrom(show, i, steps, worlds, prev), show, i, steps, worlds, prev)
    decreases |steps|
  {
    if steps == [] {
      NothingExplained(show, i, prev);
    } else {
      hide *;
      var turn := Turn(show, i, steps[0], worlds[0], prev);
      TurnExplained(show, i, steps[0], worlds[0], prev);
      RunUnfolds(show, i, steps, worlds, prev);
      assert [steps[0]] + steps[1..] == steps && [worlds[0]] + worlds[1..] == worlds;
      if turn.end != Finished {
        ExplainsLonger(turn, show, i, [steps[0]], [worlds[0]], prev, steps[1..], worlds[1..]);
      } else {
        var next := Last(turn.outputs, prev);
        RunExplained(show, i + 1, steps[1..], worlds[1..], next);
        var rest := RunFrom(show, i + 1, steps[1..], worlds[1..], next);
        ExplainsThen(turn, rest, show, i, [steps[0]], [worlds[0]], prev, steps[1..], worlds[1..]);
      }
    }
  }

  lemma {:induction false} NothingExplained(show: Value -> string, i: nat, prev: Fields)
    ensures Explains(RunFrom(show, i, [], [], prev), show, i, [], [], prev)
  {
  }

  // As far as two descriptions both go, they agree.
  lemma {:induction false} ExplanationsAgree(t: Trace, u: Trace, show: Value -> string, i: nat, steps: seq<Step>,
                                             worlds: seq<World>, prev: Fields, k: nat)
    requires |steps| == |worlds|
    requires AllExecuted(t, show, i, steps, worlds, prev) && AllExecuted(u, show, i, steps, worlds, prev)
    requires k <= |t.outputs| <= |t.records| && k <= |u.outputs| <= |u.records|
    ensures t.records[..k] == u.records[..k] && t.outputs[..k] == u.outputs[..k]
    ensures k > 0 ==> t.records[k - 1] == u.records[k - 1]
  {
    hide Record, StepEffect;
    if k > 0 {
      ExplanationsAgree(t, u, show, i, steps, worlds, prev, k - 1);
      assert t.outputs[..k - 1] == u.outputs[..k - 1];
      assert k > 1 ==> t.outputs[k - 2] == t.outputs[..k - 1][k - 2] == u.outputs[..k - 1][k - 2] == u.outputs[k - 2];
      assert Input(t.outputs, prev, k - 1) == Input(u.outputs, prev, k - 1);
      assert Executed(t, show, i, steps, worlds, prev, k - 1) && Executed(u, show, i, steps, worlds, prev, k - 1);
      assert t.records[..k] == t.records[..k - 1] + [t.records[k - 1]] && u.records[..k] == u.records[..k - 1] + [u.records[k - 1]];
      assert t.outputs[..k] == t.outputs[..k - 1] + [t.outputs[k - 1]] && u.outputs[..k] == u.outputs[..k - 1] + [u.outputs[k - 1]];
    }
  }

  // Why a run has no more outputs than it has.
  lemma {:induction false} WhyEnded(t: Trace, show: Value -> string, i: nat, steps: seq<Step>, worlds: seq<World>, prev: Fields)
    requires |steps| == |worlds| && Explains(t, show, i, steps, worlds, prev)
    ensures var n := |t.outputs|;
            || n == |steps| || worlds[n].expired || worlds[n].panics
            || (0 < n <= |t.records| && Stops(t.records[n - 1], steps[n - 1]))
  {
    hide AllExecuted, Stops, Timeout;
  }

  // And why it has that many.
  lemma {:induction false} WhyWentOn(t: Trace, show: Value -> string, i: nat, steps: seq<Step>, worlds: seq<World>, prev: Fields, n: nat)
    requires |steps| == |worlds| && Explains(t, show, i, steps, worlds, prev) && n < |t.outputs|
    ensures n < |steps| && n <= |t.records| && !worlds[n].expired && !worlds[n].panics
    ensures n > 0 ==> !Stops(t.records[n - 1], steps[n - 1])
  {
    assert Executed(t, show, i, steps, worlds, prev, n);
    hide Stops, Timeout, Record, StepEffect;
  }

  lemma {:induction false} NoLonger(t: Trace, u: Trace, show: Value -> string, i: nat, steps: seq<Step>, worlds: seq<World>, prev: Fields)
    requires |steps| == |worlds|
    requires Explains(t, show, i, steps, worlds, prev) && Explains(u, show, i, steps, worlds, prev)
    ensures |t.outputs| >= |u.outputs|
  {
    WhyEnded(t, show, i, steps, worlds, prev);
    if |t.outputs| < |u.outputs| {
      ExplanationsAgree(t, u, show, i, steps, worlds, prev, |t.outputs|);
      WhyWentOn(u, show, i, steps, worlds, prev, |t.outputs|);
      assert false;
    }
  }

  // Nothing else looks like that: the description determines the whole trace.
  lemma {:induction false} ExplanationUnique(t: Trace, u: Trace, show: Value -> string, i: nat, steps: seq<Step>, worlds: seq<World>, prev: Fields)
    requires |steps| == |worlds|
    requires Explains(t, show, i, steps, worlds, prev) && Explains(u, show, i, steps, worlds, prev)
    ensures t == u
  {
    NoLonger(t, u, show, i, steps, worlds, prev);
    NoLonger(u, t, show, i, steps, worlds, prev);
    var n := |t.outputs|;
    ExplanationsAgree(t, u, show, i, steps, worlds, prev, n);
    assert t.outputs[..n] == t.outputs && u.outputs[..n] == u.outputs;
    hide AllExecuted, Stops, Timeout;
    SameEnd(t, u, i, steps, worlds);
    if t.end == TimedOut {
      assert t.records == t.records[..n] + [t.records[n]] && u.records == u.records[..n] + [u.records[n]];
    } else {
      assert t.records == t.records[..n] && u.records == u.records[..n];
    }
  }

  lemma {:induction false} SameEnd(t: Trace, u: Trace, i: nat, steps: seq<Step>, worlds: seq<World>)
    requires |steps| == |worlds| && EndFits(t, i, steps, worlds) && EndFits(u, i, steps, worlds)
    requires StopsOnlyAtEnd(t, steps) && StopsOnlyAtEnd(u, steps)
    requires |t.outputs| == |u.outputs|
    requires |t.outputs| > 0 ==> t.records[|t.outputs| - 1] == u.records[|t.outputs| - 1]
    ensures t.end == u.end
  {
    hide Stops, Timeout;
    var n := |t.outputs|;
    if n > 0 {
      assert Stops(t.records[n - 1], steps[n - 1]) <==> t.end == Stopped;
      assert Stops(u.records[n - 1], steps[n - 1]) <==> u.end == Stopped;
    }
  }

  lemma {:induction false} ThenAssociative(a: Trace, b: Trace, c: Trace)
    ensures Then(Then(a, b), c) == Then(a, Then(b, c))
  {
  }

  // Running xs + ys is running xs and, if nothing stopped it, ys from the output xs ended with, with the
  // indexes shifted.
  lemma {:induction false} RunComposes(show: Value -> string, i: nat, xs: seq<Step>, wx: seq<World>, ys: seq<Step>,
                                       wy: seq<World>, prev: Fields)
    requires |xs| == |wx| && |ys| == |wy|
    ensures var first := RunFrom(show, i, xs, wx, prev);
            RunFrom(show, i, xs + ys, wx + wy, prev)
            == if first.end != Finished then first
               else Then(first, RunFrom(show, i + |xs|, ys, wy, Last(first.outputs, prev)))
    decreases |xs|
  {
    hide *;
    if xs == [] {
      NoneComposes(show, i, ys, wy, prev);
      assert xs + ys == ys && wx + wy == wy;
    } else {
      var turn := Turn(show, i, xs[0], wx[0], prev);
      RunUnfolds(show, i, xs, wx, prev);
      RunUnfolds(show, i, xs + ys, wx + wy, prev);
      assert (xs + ys)[1..] == xs[1..] + ys && (wx + wy)[1..] == wx[1..] + wy;
      assert (xs + ys)[0] == xs[0] && (wx + wy)[0] == wx[0];
      if turn.end == Finished {
        var next := Last(turn.outputs, prev);
        RunComposes(show, i + 1, xs[1..], wx[1..], ys, wy, next);
        var rest := RunFrom(show, i + 1, xs[1..], wx[1..], next);
        var second := RunFrom(show, i + |xs|, ys, wy, Last(rest.outputs, next));
        assert i + 1 + |xs[1..]| == i + |xs|;
        var first, whole := RunFrom(show, i, xs, wx, prev), RunFrom(show, i, xs + ys, wx + wy, prev);
        assert first == Then(turn, rest);
        assert whole == Then(turn, if rest.end != Finished then rest else Then(rest, second));
        Glued(turn, rest, second, prev);
      }
    }
  }

  lemma {:induction false} Glued(a: Trace, b: Trace, c: Trace, prev: Fields)
    requires a.end == Finished
    ensures Then(a, if b.end != Finished then b else Then(b, c)) == if Then(a, b).end != Finished then Then(a, b) else Then(Then(a, b), c)
    ensures Last(Then(a, b).outputs, prev) == Last(b.outputs, Last(a.outputs, prev)) && Then(a, b).end == b.end
  {
    LastThen(a, b, prev);
    ThenAssociative(a, b, c);
  }

  lemma {:induction false} NoneComposes(show: Value -> string, i: nat, ys: seq<Step>, wy: seq<World>, prev: Fields)
    requires |ys| == |wy|
    ensures var first := RunFrom(show, i, [], [], prev);
            first.end == Finished && RunFrom(show, i, ys, wy, prev) == Then(first, RunFrom(show, i, ys, wy, Last(first.outputs, prev)))
  {
    hide Turn;
    NothingThen(RunFrom(show, i, ys, wy, prev));
  }

  lemma {:induction false} NothingThen(t: Trace)
    ensures Then(Trace([], [], Finished), t) == t
  {
    assert [] + t.records == t.records && [] + t.outputs == t.outputs;
  }

  lemma {:induction false} RunUnfolds(show: Value -> string, i: nat, steps: seq<Step>, worlds: seq<World>, prev: Fields)
    requires |steps| == |worlds| && steps != []
    ensures var turn := Turn(show, i, steps[0], worlds[0], prev);
            RunFrom(show, i, steps, worlds, prev)
            == if turn.end != Finished then turn
               else Then(turn, RunFrom(show, i + 1, steps[1..], worlds[1..], Last(turn.outputs, prev)))
  {
    hide Turn, Then, Last;
  }

  lemma {:induction false} LastThen(a: Trace, b: Trace, prev: Fields)
    requires a.end == Finished
    ensures Last(Then(a, b).outputs, prev) == Last(b.outputs, Last(a.outputs, prev))
    ensures Then(a, b).end == b.end
  {
  }

  // With continue_on_error everywhere, no timeout and no panic, every step has its record.
  lemma {:induction false} ContinuesToTheEnd(show: Value -> string, i: nat, steps: seq<Step>, worlds: seq<World>, prev: Fields)
    requires |steps| == |worlds|
    requires forall k :: 0 <= k < |steps| ==> steps[k].continueOnError && !worlds[k].expired && !worlds[k].panics
    ensures var t := RunFrom(show, i, steps, worlds, prev);
            t.end == Finished && |t.records| == |steps|
  {
    RunExplained(show, i, steps, worlds, prev);
    hide AllExecuted, RunFrom;
    var t := RunFrom(show, i, steps, worlds, prev);
    assert t.end == Stopped ==> Stops(t.records[|t.outputs| - 1], steps[|t.outputs| - 1]);
  }

  // ---- The executor ----

  datatype RunStatus = Running | RunCompleted | RunFailed

  datatype Row = Row(status: RunStatus, error: string, result: Option<seq<Fields>>)

  predicate AnyFailed(records: seq<Fields>) { exists k :: 0 <= k < |records| && Failed(records[k]) }

  // The row at the end of a run that did not panic.
  function Summary(records: seq<Fields>, error: string): Row {
    if AnyFailed(records) then Row(RunFailed, "one or more steps failed", Some(records))
    else Row(RunCompleted, error, Some(records))
  }

  // A run is failed if and only if the status of some record, the last one included, is "failed".
  lemma {:induction false} StatusExactly(records: seq<Fields>, error: string)
    ensures var row := Summary(records, error);
            && (row.status == RunFailed
                <==> exists k :: 0 <= k < |records| && "status" in records[k] && records[k]["status"] == Str("failed"))
            && (row.status == RunFailed || row.status == RunCompleted)
            && row.error == (if row.status == RunFailed then "one or more steps failed" else error)
            && row.result == Some(records)
  {
    if exists k :: 0 <= k < |records| && "status" in records[k] && records[k]["status"] == Str("failed") {
      var k :| 0 <= k < |records| && "status" in records[k] && records[k]["status"] == Str("failed");
      assert Failed(records[k]);
    }
  }

  // A run that stopped at a failed step is failed.
  lemma {:induction false} StoppedIsFailed(show: Value -> string, steps: seq<Step>, worlds: seq<World>, error: string)
    requires |steps| == |worlds| && RunFrom(show, 0, steps, worlds, map[]).end == Stopped
    ensures var records := RunFrom(show, 0, steps, worlds, map[]).records;
            && records != [] && Failed(records[|records| - 1])
            && Summary(records, error) == Row(RunFailed, "one or more steps failed", Some(records))
  {
    var t := RunFrom(show, 0, steps, worlds, map[]);
    RunExplained(show, 0, steps, worlds, map[]);
    hide RunFrom, AllExecuted, Timeout;
    assert Stops(t.records[|t.outputs| - 1], steps[|t.outputs| - 1]);
  }

  // Running one step more.
  lemma {:induction false} TurnNext(show: Value -> string, steps: seq<Step>, worlds: seq<World>, k: nat)
    requires |steps| == |worlds| && k < |steps| && RunFrom(show, 0, steps[..k], worlds[..k], map[]).end == Finished
    ensures var so := RunFrom(show, 0, steps[..k], worlds[..k], map[]);
            RunFrom(show, 0, steps[..k + 1], worlds[..k + 1], map[])
            == Then(so, Turn(show, k, steps[k], worlds[k], Last(so.outputs, map[])))
  {
    hide *;
    var xs, wx, ys, wy := steps[..k], worlds[..k], [steps[k]], [worlds[k]];
    RunComposes(show, 0, xs, wx, ys, wy, map[]);
    OneTurn(show, k, steps[k], worlds[k], Last(RunFrom(show, 0, xs, wx, map[]).outputs, map[]));
    assert steps[..k + 1] == xs + ys && worlds[..k + 1] == wx + wy;
  }

  // A run that ends early ends there however many steps follow.
  lemma {:induction false} EndsThere(show: Value -> string, steps: seq<Step>, worlds: seq<World>, k: nat)
    requires |steps| == |worlds| && k <= |steps| && RunFrom(show, 0, steps[..k], worlds[..k], map[]).end != Finished
    ensures RunFrom(show, 0, steps, worlds, map[]) == RunFrom(show, 0, steps[..k], worlds[..k], map[])
  {
    hide *;
    var xs, wx, ys, wy := steps[..k], worlds[..k], steps[k..], worlds[k..];
    RunComposes(show, 0, xs, wx, ys, wy, map[]);
    assert steps == xs + ys && worlds == wx + wy;
  }

  lemma {:induction false} TurnAppended(show: Value -> string, steps: seq<Step>, worlds: seq<World>, k: nat)
    requires |steps| == |worlds| && k < |steps| && RunFrom(show, 0, steps[..k], worlds[..k], map[]).end == Finished
    ensures var so := RunFrom(show, 0, steps[..k], worlds[..k], map[]);
            var turn := Turn(show, k, steps[k], worlds[k], Last(so.outputs, map[]));
            && RunFrom(show, 0, steps[..k + 1], worlds[..k + 1], map[]) == Then(so, turn)
            && (turn.end != Finished ==> RunFrom(show, 0, steps, worlds, map[]) == Then(so, turn))
  {
    hide *;
    var so := RunFrom(show, 0, steps[..k], worlds[..k], map[]);
    var turn := Turn(show, k, steps[k], worlds[k], Last(so.outputs, map[]));
    TurnNext(show, steps, worlds, k);
    LastThen(so, turn, map[]);
    if turn.end != Finished {
      EndsThere(show, steps, worlds, k + 1);
    }
  }

  lemma {:induction false} OneTurn(show: Value -> string, i: nat, step: Step, world: World, prev: Fields)
    ensures RunFrom(show, i, [step], [world], prev) == Turn(show, i, step, world, prev)
  {
    var turn := Turn(show, i, step, world, prev);
    hide Turn;
    RunUnfolds(show, i, [step], [world], prev);
    assert [step][1..] == [] && [world][1..] == [];
    assert turn.records + [] == turn.records && turn.outputs + [] == turn.outputs;
  }

  class WorkflowRun {
    var status: RunStatus
    var error: string
    var result: Option<seq<Fields>>
    var saved: Option<Row> // the row in the store, once an update has reached it

    constructor ()
      ensures status == Running && error == "" && result == None && saved == None
    {
      status, error, result, saved := Running, "", None, None;
    }

    function Current(): Row
      reads this
    {
      Row(status, error, result)
    }

    // The error of the update is dropped; an expired context makes it fail.
    method UpdateWorkflowRun(ok: bool)
      modifies `saved
      ensures saved == if ok then Some(Current()) else old(saved)
    {
      if ok { saved := Some(Row(status, error, result)); }
    }

    // `expired` tells whether the five-minute context has run out at the end; `storeOk` whether the store
    // takes the final update of a context that has not.
    method ExecuteWorkflow(show: Value -> string, decoded: Option<seq<Step>>, worlds: seq<World>, expired: bool, storeOk: bool)
      requires decoded.Some? ==> |decoded.value| == |worlds|
      requires forall k :: 0 <= k < |worlds| && worlds[k].expired ==> expired
      modifies this
      ensures decoded.None? ==>
                && Current() == Row(RunFailed, "invalid steps", old(result))
                && saved == if storeOk && !expired then Some(Current()) else old(saved)
      ensures decoded.Some? ==>
                var t := RunFrom(show, 0, decoded.value, worlds, map[]);
                && Current() == (if t.end == Panicked then Row(RunFailed, "panic", old(result)) else Summary(t.records, old(error)))
                && saved == if storeOk && (t.end == Panicked || !expired) then Some(Current()) else old(saved)
      // For valid steps and no panic, on the records themselves.
      ensures decoded.Some? ==>
                var t := RunFrom(show, 0, decoded.value, worlds, map[]);
                t.end != Panicked ==>
                  && result == Some(t.records)
                  && (status == RunFailed
                      <==> exists k :: 0 <= k < |t.records| && "status" in t.records[k] && t.records[k]["status"] == Str("failed"))
                  && (status != RunFailed ==> status == RunCompleted && error == old(error))
                  && (status == RunFailed ==> error == "one or more steps failed")
    {
      if decoded.None? {
        status, error := RunFailed, "invalid steps";
        UpdateWorkflowRun(storeOk && !expired);
        return;
      }
      var results, panicked := RunSteps(show, decoded.value, worlds);
      if panicked {
        status, error := RunFailed, "panic";
        UpdateWorkflowRun(storeOk);
        return;
      }
      result := Some(results);
      StatusExactly(results, error);
      var failed := HasFailure(results);
      if failed {
        status, error := RunFailed, "one or more steps failed";
      } else {
        status := RunCompleted;
      }
      UpdateWorkflowRun(storeOk && !expired);
    }
  }

  // The loop of executeWorkflow. A panic loses the results.
  method RunSteps(show: Value -> string, steps: seq<Step>, worlds: seq<World>) returns (results: seq<Fields>, panicked: bool)
    requires |steps| == |worlds|
    ensures var t := RunFrom(show, 0, steps, worlds, map[]);
            && (panicked <==> t.end == Panicked)
            && (!panicked ==> results == t.records)
  {
    hide *;
    results, panicked := [], false;
    var prevOutput: Fields := map[];
    ghost var outputs: seq<Fields> := [];
    var i := 0;
    NoSteps(show);
    assert steps[..0] == [] && worlds[..0] == [];
    while i < |steps|
      invariant 0 <= i <= |steps| && !panicked
      invariant RunFrom(show, 0, steps[..i], worlds[..i], map[]) == Trace(results, outputs, Finished)
      invariant prevOutput == Last(outputs, map[])
    {
      TurnAppended(show, steps, worlds, i);
      var result, output, outcome := ExecuteTurn(show, i, steps[i], worlds[i], prevOutput);
      ThenTurn(Trace(results, outputs, Finished), Turn(show, i, steps[i], worlds[i], prevOutput));
      if outcome == Panicked {
        panicked := true;
        return;
      }
      results := results + [result];
      if outcome != Finished {
        return;
      }
      outputs := outputs + [output];
      prevOutput := output;
      i := i + 1;
    }
    assert steps[..i] == steps && worlds[..i] == worlds;
  }

  lemma {:induction false} ThenTurn(so: Trace, turn: Trace)
    requires so.end == Finished
    ensures Then(so, turn) == Trace(so.records + turn.records, so.outputs + turn.outputs, turn.end)
    ensures forall o: Fields, prev: Fields :: turn.outputs == [o] ==> Last(so.outputs + [o], prev) == o
    ensures turn.records == [] ==> so.records + turn.records == so.records
  {
  }

  // The body of the loop: the context check, the record, the step, and whether to break.
  method ExecuteTurn(show: Value -> string, i: nat, step: Step, world: World, prevOutput: Fields)
    returns (record: Fields, output: Fields, outcome: End)
    ensures var turn := Turn(show, i, step, world, prevOutput);
            && outcome == turn.end
            && (outcome != Panicked ==> turn.records == [record])
            && (outcome == Finished ==> turn.outputs == [output])
  {
    output := map[];
    if world.expired {
      record := map["step" := Num(i as real), "type" := Str(KindName(step.kind)), "status" := Str("skipped"),
                    "error" := Str("timeout")];
      return record, output, TimedOut;
    }
    if world.panics {
      return map[], output, Panicked;
    }
    var result := new ResultMap(map["step" := Num(i as real), "type" := Str(KindName(step.kind)), "status" := Str("completed")]);
    if prevOutput != map[] {
      result.Put("prev_output", Obj(prevOutput));
    }
    assert result.fields == Started(i, step, prevOutput);
    hide StepEffect, Started, Timeout;
    output := ExecuteStep(show, step, world.calls, result, prevOutput);
    record := result.fields;
    outcome := if "status" in record && record["status"] == Str("failed") && !step.continueOnError then Stopped else Finished;
  }

  lemma {:induction false} NoSteps(show: Value -> string)
    ensures Last([], map[]) == map[]
    ensures RunFrom(show, 0, [], [], map[]) == Trace([], [], Finished)
  {
  }

  // The scan of the results.
  method HasFailure(results: seq<Fields>) returns (failed: bool)
    ensures failed <==> exists k :: 0 <= k < |results| && "status" in results[k] && results[k]["status"] == Str("failed")
  {
    failed := false;
    var i := 0;
    while i < |results|
      invariant 0 <= i <= |results|
      invariant !failed && forall k :: 0 <= k < i ==> !Failed(results[k])
    {
      if "status" in results[i] && results[i]["status"] == Str("failed") {
        return true;
      }
      i := i + 1;
    }
  }

  // What a timed-out run leaves behind: it ends on a "timeout" record, which counts as skipped, so the run
  // is completed if and only if no step failed before it; and the context has run out, so that the final
  // update, made with that context, does not reach the store.
  lemma {:induction false} TimedOutRun(show: Value -> string, steps: seq<Step>, worlds: seq<World>, error: string)
    requires |steps| == |worlds|
    requires RunFrom(show, 0, steps, worlds, map[]).end == TimedOut
    ensures var records := RunFrom(show, 0, steps, worlds, map[]).records;
            var n := |records| - 1;
            && 0 <= n < |steps| && worlds[n].expired
            && records[n] == map["step" := Num(n as real), "type" := Str(KindName(steps[n].kind)), "status" := Str("skipped"),
                                 "error" := Str("timeout")]
            && (Summary(records, error).status == RunCompleted <==> forall k :: 0 <= k < n ==> !Failed(records[k]))
  {
    var t := RunFrom(show, 0, steps, worlds, map[]);
    RunExplained(show, 0, steps, worlds, map[]);
    hide RunFrom, AllExecuted, StopsOnlyAtEnd;
    var n := |t.records| - 1;
    TimeoutNotFailed(n, steps[n]);
    assert t.records[n] == Timeout(n, steps[n]);
    hide Failed, Explains, EndFits;
    SummaryStatus(t.records, error);
  }

  lemma {:induction false} SummaryStatus(records: seq<Fields>, error: string)
    requires records != [] && !Failed(records[|records| - 1])
    ensures Summary(records, error).status == RunCompleted
            <==> forall k :: 0 <= k < |records| - 1 ==> !Failed(records[k])
  {
    hide Failed;
  }

  lemma {:induction false} TimeoutNotFailed(i: nat, step: Step)
    ensures !Failed(Timeout(i, step))
  {
  }
}
