/** `json::Node` as the builder and the request handler use it. json.h is
    not part of this model: a node is one of the alternatives of its
    variant (null, array, dict, bool, int, double, string). A double that
    is an IEEE infinity or NaN has no `real` counterpart and is kept apart
    as `NonFinite`. */
module Json {

  datatype Node =
    | Null
    | Arr(items: seq<Node>)
    | Obj(fields: map<string, Node>)
    | Bool(b: bool)
    | Int(i: int)
    | Num(r: real)
    | NonFinite
    | Str(s: string)

  /** The last element of a non-empty sequence (`back()`). */
  function Last<X>(s: seq<X>): X
    requires s != []
  {
    s[|s| - 1]
  }

  /** All but the last element (`pop_back()`). */
  function Front<X>(s: seq<X>): seq<X>
    requires s != []
  {
    s[..|s| - 1]
  }
}

/** `json::Builder`: a stack of nodes under construction, a stack of
    pending dict keys, and four control fields. Every call either throws
    `std::logic_error` before changing anything, or updates the fields.
    The calls are step functions on a `State` value; the class performs
    them in place. The five context classes of the header are the
    `Context` values: each offers a subset of the calls. */
module JsonBuilder {
  import opened Json
  import opened Wrappers

  /** The value of `last_command`: empty before the first call, then the
      name of the last successful call. */
  datatype Command = NoCommand | KeyCmd | ValueCmd | StartDictCmd | StartArrayCmd | EndDictCmd | EndArrayCmd

  /** The fields of a builder, as a value. */
  datatype State = State(stack: seq<Node>, keys: seq<string>, unclosed: int, last: Command,
                         completed: bool, permission: bool)

  /** A default-constructed builder. */
  const Fresh := State([], [], 0, NoCommand, false, true)

  /** One call on a builder. */
  datatype Call =
    | KeyCall(key: string)
    | ValueCall(value: Node)
    | StartDictCall
    | StartArrayCall
    | EndDictCall
    | EndArrayCall

  /** A call either throws (`Thrown`; the builder is left as it was) or
      succeeds with a new state. */
  datatype Outcome = Thrown | Done(next: State)

  predicate IsContainer(n: Node)
  {
    n.Arr? || n.Obj?
  }

  /** The number of dicts in a sequence of nodes. */
  function CountDicts(s: seq<Node>): nat
    decreases |s|
  {
    if s == [] then 0 else CountDicts(Front(s)) + (if Last(s).Obj? then 1 else 0)
  }

  /** The keys an unfinished builder must hold: one for every dict below
      the top of the stack (the key its open child goes under), and one
      more when the top is a dict that may take a value. */
  function KeysNeeded(stack: seq<Node>, permission: bool): nat
  {
    if stack == [] then 0
    else CountDicts(Front(stack)) + (if Last(stack).Obj? && permission then 1 else 0)
  }

  /** What every sequence of calls from a fresh builder maintains: a
      completed builder holds exactly the root and nothing is open; an
      unfinished one holds only open containers, counts them, and has a
      key for every dict that needs one (so `keys.back()` is always
      defined where it is read). */
  ghost predicate Inv(s: State)
  {
    && (s.completed ==> |s.stack| == 1 && s.unclosed == 0)
    && (!s.completed ==> s.unclosed == |s.stack|)
    && (!s.completed ==> forall i | 0 <= i < |s.stack| :: IsContainer(s.stack[i]))
    && (!s.completed ==> |s.keys| >= KeysNeeded(s.stack, s.permission))
  }

  /** `Key`: throws unless the top of the stack is a dict, the last call
      was not `Key` and the object is unfinished; pushes the key and grants
      permission to insert. */
  function KeyStep(s: State, key: string): Outcome
  {
    if s.stack == [] || !Last(s.stack).Obj? || s.last == KeyCmd || s.completed then Thrown
    else Done(s.(keys := s.keys + [key], last := KeyCmd, permission := true))
  }

  /** `Value`: throws when the object is complete or insertion is not
      permitted. Into a dict it goes under the last key, which is popped,
      and permission is withdrawn; onto an array it is appended; on an
      empty stack it becomes the root and the object is complete. */
  function ValueStep(s: State, v: Node): Outcome
    requires Inv(s)
  {
    if s.completed || !s.permission then Thrown
    else if s.stack != [] then
      var top := Last(s.stack);
      if top.Obj? then
        Done(s.(stack := Front(s.stack) + [Obj(top.fields[Last(s.keys) := v])], keys := Front(s.keys),
                permission := false, last := ValueCmd))
      else if top.Arr? then
        Done(s.(stack := Front(s.stack) + [Arr(top.items + [v])], permission := true, last := ValueCmd))
      else
        Done(s.(last := ValueCmd))
    else
      Done(s.(stack := [v], completed := true, last := ValueCmd))
  }

  /** `StartDict`: throws like `Value`; pushes an empty dict, which waits
      for a key. */
  function StartDictStep(s: State): Outcome
  {
    if s.completed || !s.permission then Thrown
    else Done(s.(stack := s.stack + [Obj(map[])], unclosed := s.unclosed + 1, last := StartDictCmd,
                 permission := false))
  }

  /** `StartArray`: throws like `Value`; pushes an empty array, which
      takes values at once. */
  function StartArrayStep(s: State): Outcome
  {
    if s.completed || !s.permission then Thrown
    else Done(s.(stack := s.stack + [Arr([])], unclosed := s.unclosed + 1, last := StartArrayCmd,
                 permission := true))
  }

  /** `EndContainer`: the finished top container goes into its parent
      (appended to an array, which keeps permission; stored under the
      popped key of a dict, which loses it); one container fewer is open,
      and the object is complete when only the root is left. */
  function EndContainer(s: State): State
    requires Inv(s) && !s.completed && s.stack != []
  {
    var n := |s.stack|;
    var s1 :=
      if n >= 2 then
        var parent := s.stack[n - 2];
        var top := Last(s.stack);
        if parent.Arr? then
          s.(stack := s.stack[..n - 2] + [Arr(parent.items + [top])], permission := true)
        else
          s.(stack := s.stack[..n - 2] + [Obj(parent.fields[Last(s.keys) := top])], keys := Front(s.keys),
             permission := false)
      else s;
    var s2 := s1.(unclosed := s1.unclosed - 1);
    if |s2.stack| == 1 && s2.unclosed == 0 then s2.(completed := true) else s2
  }

  /** `EndDict`: throws unless the top of the stack is a dict and the
      object is unfinished. On an empty stack the source reads `back()` of
      an empty vector, which is undefined; the model throws. */
  function EndDictStep(s: State): Outcome
    requires Inv(s)
  {
    if s.stack == [] || !Last(s.stack).Obj? || s.completed then Thrown
    else Done(EndContainer(s).(last := EndDictCmd))
  }

  /** `EndArray`: the same for an array on top. */
  function EndArrayStep(s: State): Outcome
    requires Inv(s)
  {
    if s.stack == [] || !Last(s.stack).Arr? || s.completed then Thrown
    else Done(EndContainer(s).(last := EndArrayCmd))
  }

  function Apply(s: State, c: Call): Outcome
    requires Inv(s)
  {
    match c
    case KeyCall(k) => KeyStep(s, k)
    case ValueCall(v) => ValueStep(s, v)
    case StartDictCall => StartDictStep(s)
    case StartArrayCall => StartArrayStep(s)
    case EndDictCall => EndDictStep(s)
    case EndArrayCall => EndArrayStep(s)
  }

  /** `Build`: the root, once the object is complete; otherwise it
      throws. */
  function BuildStep(s: State): (r: Option<Node>)
    requires Inv(s)
    ensures r.Some? <==> s.completed
  {
    if s.completed then Some(s.stack[0]) else None
  }

  // ------------------------------------------------------------ the invariant

  lemma FreshInv()
    ensures Inv(Fresh)
  {
  }

  /** Removing the top of a stack removes its dict from the count. */
  lemma CountDictsSnoc(s: seq<Node>, x: Node)
    ensures CountDicts(s + [x]) == CountDicts(s) + (if x.Obj? then 1 else 0)
  {
    assert Front(s + [x]) == s;
  }

  /** Every successful call keeps the invariant. */
  lemma StepKeepsInv(s: State, c: Call)
    requires Inv(s) && Apply(s, c).Done?
    ensures Inv(Apply(s, c).next)
  {
    match c {
      case KeyCall(k) =>
      case ValueCall(v) => ValueKeepsInv(s, v);
      case StartDictCall => StartKeepsInv(s, c);
      case StartArrayCall => StartKeepsInv(s, c);
      case EndDictCall => EndContainerKeepsInv(s);
      case EndArrayCall => EndContainerKeepsInv(s);
    }
  }

  /** `Value` keeps the invariant. */
  lemma ValueKeepsInv(s: State, v: Node)
    requires Inv(s) && ValueStep(s, v).Done?
    ensures Inv(ValueStep(s, v).next)
  {
    var t := ValueStep(s, v).next;
    if s.stack != [] {
      CountDictsSnoc(Front(s.stack), Last(s.stack));
      assert s.stack == Front(s.stack) + [Last(s.stack)];
      CountDictsSnoc(Front(s.stack), Last(t.stack));
      ContainersSnoc(s.stack, Last(t.stack));
    }
  }

  /** `StartDict` and `StartArray` keep the invariant. */
  lemma StartKeepsInv(s: State, c: Call)
    requires c == StartDictCall || c == StartArrayCall
    requires Inv(s) && Apply(s, c).Done?
    ensures Inv(Apply(s, c).next)
  {
    var t := Apply(s, c).next;
    if s.stack != [] {
      assert Front(t.stack) == s.stack;
    }
    ContainersSnoc2(s.stack, Last(t.stack));
  }

  /** Replacing the top container by another keeps a stack of containers. */
  lemma ContainersSnoc(stack: seq<Node>, x: Node)
    requires stack != [] && IsContainer(x)
    requires forall i | 0 <= i < |stack| :: IsContainer(stack[i])
    ensures forall i | 0 <= i < |Front(stack) + [x]| :: IsContainer((Front(stack) + [x])[i])
  {
  }

  /** Pushing a container keeps a stack of containers. */
  lemma ContainersSnoc2(stack: seq<Node>, x: Node)
    requires IsContainer(x)
    ensures (forall i | 0 <= i < |stack| :: IsContainer(stack[i])) ==>
            forall i | 0 <= i < |stack + [x]| :: IsContainer((stack + [x])[i])
  {
  }

  /** Closing the top container keeps the invariant. */
  lemma EndContainerKeepsInv(s: State)
    requires Inv(s) && !s.completed && s.stack != []
    ensures Inv(EndContainer(s))
  {
    var n := |s.stack|;
    if n >= 2 {
      var below := s.stack[..n - 2];
      var parent := s.stack[n - 2];
      assert Front(s.stack) == below + [parent];
      CountDictsSnoc(below, parent);
    }
  }

  // ------------------------------------------------------------ the contexts

  /** The object a call returns, which decides what may be called next: the
      builder itself, or one of the five context classes. */
  datatype Context = BuilderCtx | DictKeyCtx | DictValueCtx | ArrayValueCtx | StartDictCtx | StartArrayCtx

  /** The calls each object offers. */
  predicate Offers(ctx: Context, c: Call)
  {
    match ctx
    case BuilderCtx => true
    case DictKeyCtx => c.ValueCall? || c.StartDictCall? || c.StartArrayCall?
    case DictValueCtx => c.KeyCall? || c.EndDictCall?
    case StartDictCtx => c.KeyCall? || c.EndDictCall?
    case ArrayValueCtx => c.ValueCall? || c.StartDictCall? || c.StartArrayCall? || c.EndArrayCall?
    case StartArrayCtx => c.ValueCall? || c.StartDictCall? || c.StartArrayCall? || c.EndArrayCall?
  }

  /** The object a call made through ctx returns: `Key` a DictKeyContext,
      `StartDict` a StartDictContext, `StartArray` a StartArrayContext,
      `Value` a DictValueContext after a key, an ArrayValueContext inside
      an array and a copy of the builder when called on the builder, and
      the two ends the builder. */
  function Returns(ctx: Context, c: Call): Context
  {
    match c
    case KeyCall(_) => DictKeyCtx
    case ValueCall(_) =>
      if ctx == DictKeyCtx then DictValueCtx
      else if ctx == ArrayValueCtx || ctx == StartArrayCtx then ArrayValueCtx
      else BuilderCtx
    case StartDictCall => StartDictCtx
    case StartArrayCall => StartArrayCtx
    case EndDictCall => BuilderCtx
    case EndArrayCall => BuilderCtx
  }

  /** What holds of the builder behind each context. */
  predicate Holds(ctx: Context, s: State)
  {
    match ctx
    case BuilderCtx => true
    case DictKeyCtx =>
      !s.completed && s.permission && s.stack != [] && Last(s.stack).Obj? && s.last == KeyCmd
    case DictValueCtx =>
      !s.completed && !s.permission && s.stack != [] && Last(s.stack).Obj? && s.last != KeyCmd
    case StartDictCtx =>
      !s.completed && !s.permission && s.stack != [] && Last(s.stack).Obj? && s.last != KeyCmd
    case ArrayValueCtx =>
      !s.completed && s.permission && s.stack != [] && Last(s.stack).Arr?
    case StartArrayCtx =>
      !s.completed && s.permission && s.stack != [] && Last(s.stack).Arr?
  }

  /** The contexts are safe: a call a context offers never throws, and
      the context it returns describes the builder after it. */
  lemma OfferedCallsSucceed(ctx: Context, s: State, c: Call)
    requires Inv(s) && Holds(ctx, s) && Offers(ctx, c) && ctx != BuilderCtx
    ensures Apply(s, c).Done?
    ensures Holds(Returns(ctx, c), Apply(s, c).next)
  {
  }

  /** Without a key, a dict refuses values and containers: this is why
      the contexts after `StartDict` and after a dict value offer only
      `Key` and `EndDict`. */
  lemma DictNeedsKey(s: State, v: Node)
    requires Inv(s) && (Holds(StartDictCtx, s) || Holds(DictValueCtx, s))
    ensures Apply(s, ValueCall(v)).Thrown?
    ensures Apply(s, StartDictCall).Thrown? && Apply(s, StartArrayCall).Thrown?
  {
  }

  /** Two keys in a row are refused: this is why the context after `Key`
      does not offer `Key`. */
  lemma NoKeyAfterKey(s: State, k: string)
    requires Inv(s) && Holds(DictKeyCtx, s)
    ensures Apply(s, KeyCall(k)).Thrown?
  {
  }

  /** A completed object refuses every further call, and only a completed
      object can be built. */
  lemma CompletedIsFinal(s: State, c: Call)
    requires Inv(s) && s.completed
    ensures Apply(s, c).Thrown?
    ensures BuildStep(s) == Some(s.stack[0])
  {
  }

  // ------------------------------------------------------------ sequences of calls

  /** The calls in order; the first that throws ends the run. */
  function Run(s: State, calls: seq<Call>): Outcome
    requires Inv(s)
    decreases |calls|
  {
    if calls == [] then Done(s)
    else
      match Apply(s, calls[0])
      case Thrown => Thrown
      case Done(t) =>
        StepKeepsInv(s, calls[0]);
        Run(t, calls[1..])
  }

  /** A run keeps the invariant. */
  lemma {:induction false} RunKeepsInv(s: State, calls: seq<Call>)
    requires Inv(s) && Run(s, calls).Done?
    ensures Inv(Run(s, calls).next)
    decreases |calls|
  {
    if calls != [] {
      StepKeepsInv(s, calls[0]);
      RunKeepsInv(Apply(s, calls[0]).next, calls[1..]);
    }
  }

  /** Running a + b is running a, then b. */
  lemma {:induction false} RunAppend(s: State, a: seq<Call>, b: seq<Call>)
    requires Inv(s) && Run(s, a).Done?
    ensures Inv(Run(s, a).next)
    ensures Run(s, a + b) == Run(Run(s, a).next, b)
    decreases |a|
  {
    RunKeepsInv(s, a);
    if a == [] {
      assert a + b == b;
    } else {
      StepKeepsInv(s, a[0]);
      assert (a + b)[1..] == a[1..] + b;
      RunAppend(Apply(s, a[0]).next, a[1..], b);
    }
  }

  /** A value call for each node. */
  function ValueCalls(vs: seq<Node>): (r: seq<Call>)
    ensures |r| == |vs|
    ensures forall i | 0 <= i < |vs| :: r[i] == ValueCall(vs[i])
  {
    seq(|vs|, i requires 0 <= i < |vs| => ValueCall(vs[i]))
  }

  /** The state of a builder inside an open array holding vs, below which
      the stack holds `under` and the keys are `keys`. */
  function InArray(under: seq<Node>, keys: seq<string>, vs: seq<Node>, last: Command): State
  {
    State(under + [Arr(vs)], keys, |under| + 1, last, false, true)
  }

  /** Values given to an open array are appended in order. */
  lemma {:induction false} ValuesAppend(under: seq<Node>, keys: seq<string>, vs: seq<Node>, ws: seq<Node>,
                                        last: Command)
    requires Inv(InArray(under, keys, vs, last))
    ensures Run(InArray(under, keys, vs, last), ValueCalls(ws))
            == Done(InArray(under, keys, vs + ws, if ws == [] then last else ValueCmd))
    decreases |ws|
  {
    if ws != [] {
      var s := InArray(under, keys, vs, last);
      var t := InArray(under, keys, vs + [ws[0]], ValueCmd);
      assert Front(s.stack) == under;
      assert Apply(s, ValueCall(ws[0])) == Done(t);
      StepKeepsInv(s, ValueCall(ws[0]));
      var calls := ValueCalls(ws);
      assert calls[0] == ValueCall(ws[0]);
      assert calls[1..] == ValueCalls(ws[1..]);
      assert Run(s, calls) == Run(t, calls[1..]);
      ValuesAppend(under, keys, vs + [ws[0]], ws[1..], ValueCmd);
      assert vs + [ws[0]] + ws[1..] == vs + ws;
    } else {
      assert ValueCalls(ws) == [];
      assert vs + ws == vs;
    }
  }

  /** `StartArray` on a fresh builder opens the root array. */
  lemma StartRootArray()
    ensures Run(Fresh, [StartArrayCall]) == Done(InArray([], [], [], StartArrayCmd))
  {
    assert Front(InArray([], [], [], StartArrayCmd).stack) == [];
  }

  /** `EndArray` on the open root array closes it, and the object is
      complete: `Build` gives the array. */
  lemma EndRootArray(vs: seq<Node>, last: Command)
    requires Inv(InArray([], [], vs, last))
    ensures Run(InArray([], [], vs, last), [EndArrayCall]) == Done(State([Arr(vs)], [], 0, EndArrayCmd, true, true))
    ensures BuildStep(State([Arr(vs)], [], 0, EndArrayCmd, true, true)) == Some(Arr(vs))
  {
    var s := InArray([], [], vs, last);
    var t := State([Arr(vs)], [], 0, EndArrayCmd, true, true);
    assert s.stack == [Arr(vs)];
    assert Apply(s, EndArrayCall) == Done(t);
    assert [EndArrayCall][1..] == [];
  }

  /** `StartArray` and a `Value` per node on a fresh builder leave the
      root array open, holding the nodes. */
  lemma ArrayFilled(vs: seq<Node>)
    ensures Run(Fresh, [StartArrayCall] + ValueCalls(vs))
            == Done(InArray([], [], vs, if vs == [] then StartArrayCmd else ValueCmd))
  {
    var open := InArray([], [], [], StartArrayCmd);
    StartRootArray();
    FreshInv();
    RunAppend(Fresh, [StartArrayCall], ValueCalls(vs));
    assert Run(Fresh, [StartArrayCall] + ValueCalls(vs)) == Run(open, ValueCalls(vs));
    ValuesAppend([], [], [], vs, StartArrayCmd);
    assert [] + vs == vs;
  }

  /** Building an array of values: `StartArray`, a `Value` per node and
      `EndArray` on a fresh builder give exactly that array. */
  lemma ArrayOfValues(vs: seq<Node>)
    ensures Run(Fresh, [StartArrayCall] + ValueCalls(vs) + [EndArrayCall])
            == Done(State([Arr(vs)], [], 0, EndArrayCmd, true, true))
    ensures BuildStep(State([Arr(vs)], [], 0, EndArrayCmd, true, true)) == Some(Arr(vs))
  {
    ArrayFilled(vs);
    RunAppend(Fresh, [StartArrayCall] + ValueCalls(vs), [EndArrayCall]);
    EndRootArray(vs, if vs == [] then StartArrayCmd else ValueCmd);
  }

  // ------------------------------------------------------------ building dicts

  /** An open dict holding fields on top of `under`, waiting for a key. */
  function InDict(under: seq<Node>, keys: seq<string>, fields: map<string, Node>, last: Command): State
  {
    State(under + [Obj(fields)], keys, |under| + 1, last, false, false)
  }

  /** An open dict holding fields after `Key`, the key on top of keys. */
  function AtKey(under: seq<Node>, keys: seq<string>, fields: map<string, Node>): State
  {
    State(under + [Obj(fields)], keys, |under| + 1, KeyCmd, false, true)
  }

  /** `StartDict` on a fresh builder opens the root dict. */
  lemma StartRootDict()
    ensures StartDictStep(Fresh) == Done(InDict([], [], map[], StartDictCmd))
    ensures Inv(InDict([], [], map[], StartDictCmd))
  {
    assert Front(InDict([], [], map[], StartDictCmd).stack) == [];
  }

  /** `Key(k)` in an open dict that is not waiting for a value pushes k. */
  lemma {:induction false} KeyInDict(under: seq<Node>, keys: seq<string>, fields: map<string, Node>,
                                     last: Command, k: string)
    requires Inv(InDict(under, keys, fields, last)) && last != KeyCmd
    ensures KeyStep(InDict(under, keys, fields, last), k) == Done(AtKey(under, keys + [k], fields))
    ensures Inv(AtKey(under, keys + [k], fields))
  {
    var s := InDict(under, keys, fields, last);
    assert Front(s.stack) == under;
    StepKeepsInv(s, KeyCall(k));
  }

  /** `Value(v)` after `Key(k)` stores v under k and pops k. */
  lemma {:induction false} ValueAtKey(under: seq<Node>, keys: seq<string>, fields: map<string, Node>,
                                      k: string, v: Node)
    requires Inv(AtKey(under, keys + [k], fields))
    ensures ValueStep(AtKey(under, keys + [k], fields), v) == Done(InDict(under, keys, fields[k := v], ValueCmd))
    ensures Inv(InDict(under, keys, fields[k := v], ValueCmd))
  {
    var t := AtKey(under, keys + [k], fields);
    assert Front(t.stack) == under;
    assert Front(t.keys) == keys && Last(t.keys) == k;
    StepKeepsInv(t, ValueCall(v));
  }

  /** `StartDict` in an open array opens a dict inside it. */
  lemma {:induction false} StartDictInArray(under: seq<Node>, keys: seq<string>, vs: seq<Node>, last: Command)
    requires Inv(InArray(under, keys, vs, last))
    ensures StartDictStep(InArray(under, keys, vs, last)) == Done(InDict(under + [Arr(vs)], keys, map[], StartDictCmd))
    ensures Inv(InDict(under + [Arr(vs)], keys, map[], StartDictCmd))
  {
    var s := InArray(under, keys, vs, last);
    var t := InDict(under + [Arr(vs)], keys, map[], StartDictCmd);
    assert t.stack == s.stack + [Obj(map[])];
    StepKeepsInv(s, StartDictCall);
  }

  /** `EndDict` of a dict inside an array appends it to the array. */
  lemma {:induction false} EndDictInArray(under: seq<Node>, keys: seq<string>, vs: seq<Node>,
                                          fields: map<string, Node>, last: Command)
    requires Inv(InDict(under + [Arr(vs)], keys, fields, last))
    ensures EndDictStep(InDict(under + [Arr(vs)], keys, fields, last))
            == Done(InArray(under, keys, vs + [Obj(fields)], EndDictCmd))
    ensures Inv(InArray(under, keys, vs + [Obj(fields)], EndDictCmd))
  {
    var s := InDict(under + [Arr(vs)], keys, fields, last);
    var n := |s.stack|;
    assert s.stack[n - 2] == Arr(vs) && s.stack[..n - 2] == under;
    StepKeepsInv(s, EndDictCall);
  }

  /** `StartArray` after a key opens an array that goes under that key. */
  lemma {:induction false} StartArrayAtKey(under: seq<Node>, keys: seq<string>, fields: map<string, Node>)
    requires Inv(AtKey(under, keys, fields))
    ensures StartArrayStep(AtKey(under, keys, fields)) == Done(InArray(under + [Obj(fields)], keys, [], StartArrayCmd))
    ensures Inv(InArray(under + [Obj(fields)], keys, [], StartArrayCmd))
  {
    var s := AtKey(under, keys, fields);
    var t := InArray(under + [Obj(fields)], keys, [], StartArrayCmd);
    assert t.stack == s.stack + [Arr([])];
    StepKeepsInv(s, StartArrayCall);
  }

  /** `EndArray` of an array opened under key k stores it under k. */
  lemma {:induction false} EndArrayInDict(under: seq<Node>, keys: seq<string>, k: string,
                                          fields: map<string, Node>, vs: seq<Node>, last: Command)
    requires Inv(InArray(under + [Obj(fields)], keys + [k], vs, last))
    ensures EndArrayStep(InArray(under + [Obj(fields)], keys + [k], vs, last))
            == Done(InDict(under, keys, fields[k := Arr(vs)], EndArrayCmd))
    ensures Inv(InDict(under, keys, fields[k := Arr(vs)], EndArrayCmd))
  {
    var s := InArray(under + [Obj(fields)], keys + [k], vs, last);
    var n := |s.stack|;
    assert s.stack[n - 2] == Obj(fields) && s.stack[..n - 2] == under;
    assert Last(s.keys) == k && Front(s.keys) == keys;
    StepKeepsInv(s, EndArrayCall);
  }

  /** `EndDict` of the root dict completes the object, which builds to
      that dict. */
  lemma EndRootDict(fields: map<string, Node>, last: Command)
    ensures Inv(InDict([], [], fields, last))
    ensures EndDictStep(InDict([], [], fields, last)) == Done(State([Obj(fields)], [], 0, EndDictCmd, true, false))
    ensures BuildStep(State([Obj(fields)], [], 0, EndDictCmd, true, false)) == Some(Obj(fields))
  {
    var s := InDict([], [], fields, last);
    assert s.stack == [Obj(fields)];
    assert Front(s.stack) == [];
    assert Inv(s);
    assert EndContainer(s) == State([Obj(fields)], [], 0, last, true, false);
  }

  // ------------------------------------------------------------ the class

  class Builder {
    var stack: seq<Node>
    var keys: seq<string>
    var unclosed: int
    var last: Command
    var completed: bool
    var permission: bool

    function Snapshot(): State
      reads this
    {
      State(stack, keys, unclosed, last, completed, permission)
    }

    ghost predicate Valid()
      reads this
    {
      Inv(Snapshot())
    }

    /** A default-constructed builder: nothing open, not completed,
        permitted to insert. */
    constructor ()
      ensures Valid() && Snapshot() == Fresh
    {
      stack := [];
      keys := [];
      unclosed := 0;
      last := NoCommand;
      completed := false;
      permission := true;
    }

    /** `Key`; `ok` is false where the source throws. */
    method Key(key: string) returns (ok: bool)
      requires Valid()
      modifies this
      ensures Valid()
      ensures ok <==> KeyStep(old(Snapshot()), key).Done?
      ensures ok ==> Snapshot() == KeyStep(old(Snapshot()), key).next
      ensures !ok ==> Snapshot() == old(Snapshot())
    {
      if stack == [] || !Last(stack).Obj? || last == KeyCmd || completed {
        return false;
      }
      keys := keys + [key];
      last := KeyCmd;
      permission := true;
      StepKeepsInv(old(Snapshot()), KeyCall(key));
      return true;
    }

    /** `Value`; returns, as the source does, a copy of the builder, which
        is a separate object: calls on the copy leave this builder
        alone. */
    method Value(v: Node) returns (ok: bool, copy: Builder)
      requires Valid()
      modifies this
      ensures Valid()
      ensures ok <==> ValueStep(old(Snapshot()), v).Done?
      ensures ok ==> Snapshot() == ValueStep(old(Snapshot()), v).next
      ensures !ok ==> Snapshot() == old(Snapshot())
      ensures fresh(copy) && copy.Snapshot() == Snapshot()
    {
      ghost var s := Snapshot();
      if completed || !permission {
        ok := false;
      } else {
        ValueKeepsInv(s, v);
        if stack != [] {
          var top := Last(stack);
          if top.Obj? {
            stack := Front(stack) + [Obj(top.fields[Last(keys) := v])];
            keys := Front(keys);
            permission := false;
          } else if top.Arr? {
            stack := Front(stack) + [Arr(top.items + [v])];
            permission := true;
          }
        } else {
          stack := [v];
          completed := true;
        }
        last := ValueCmd;
        ok := true;
      }
      copy := new Builder.Copy(this);
    }

    /** A copy of another builder's fields. */
    constructor Copy(other: Builder)
      ensures Snapshot() == other.Snapshot()
    {
      stack := other.stack;
      keys := other.keys;
      unclosed := other.unclosed;
      last := other.last;
      completed := other.completed;
      permission := other.permission;
    }

    /** `StartDict`. */
    method StartDict() returns (ok: bool)
      requires Valid()
      modifies this
      ensures Valid()
      ensures ok <==> StartDictStep(old(Snapshot())).Done?
      ensures ok ==> Snapshot() == StartDictStep(old(Snapshot())).next
      ensures !ok ==> Snapshot() == old(Snapshot())
    {
      if completed || !permission {
        return false;
      }
      stack := stack + [Obj(map[])];
      unclosed := unclosed + 1;
      last := StartDictCmd;
      permission := false;
      StepKeepsInv(old(Snapshot()), StartDictCall);
      return true;
    }

    /** `StartArray`. */
    method StartArray() returns (ok: bool)
      requires Valid()
      modifies this
      ensures Valid()
      ensures ok <==> StartArrayStep(old(Snapshot())).Done?
      ensures ok ==> Snapshot() == StartArrayStep(old(Snapshot())).next
      ensures !ok ==> Snapshot() == old(Snapshot())
    {
      if completed || !permission {
        return false;
      }
      stack := stack + [Arr([])];
      unclosed := unclosed + 1;
      last := StartArrayCmd;
      permission := true;
      StepKeepsInv(old(Snapshot()), StartArrayCall);
      return true;
    }

    /** `EndDict`. */
    method EndDict() returns (ok: bool)
      requires Valid()
      modifies this
      ensures Valid()
      ensures ok <==> EndDictStep(old(Snapshot())).Done?
      ensures ok ==> Snapshot() == EndDictStep(old(Snapshot())).next
      ensures !ok ==> Snapshot() == old(Snapshot())
    {
      if stack == [] || !Last(stack).Obj? || completed {
        return false;
      }
      EndContainerInPlace();
      last := EndDictCmd;
      StepKeepsInv(old(Snapshot()), EndDictCall);
      return true;
    }

    /** `EndArray`. */
    method EndArray() returns (ok: bool)
      requires Valid()
      modifies this
      ensures Valid()
      ensures ok <==> EndArrayStep(old(Snapshot())).Done?
      ensures ok ==> Snapshot() == EndArrayStep(old(Snapshot())).next
      ensures !ok ==> Snapshot() == old(Snapshot())
    {
      if stack == [] || !Last(stack).Arr? || completed {
        return false;
      }
      EndContainerInPlace();
      last := EndArrayCmd;
      StepKeepsInv(old(Snapshot()), EndArrayCall);
      return true;
    }

    /** `EndContainer`, in place. */
    method EndContainerInPlace()
      requires Valid() && !completed && stack != []
      modifies this
      ensures Snapshot() == EndContainer(old(Snapshot()))
    {
      var n := |stack|;
      if n >= 2 {
        var parent := stack[n - 2];
        var top := Last(stack);
        if parent.Arr? {
          stack := stack[..n - 2] + [Arr(parent.items + [top])];
          permission := true;
        } else {
          stack := stack[..n - 2] + [Obj(parent.fields[Last(keys) := top])];
          keys := Front(keys);
          permission := false;
        }
      }
      unclosed := unclosed - 1;
      if |stack| == 1 && unclosed == 0 {
        completed := true;
      }
    }

    /** `Build`: the root once the object is complete; `ok` is false where
        the source throws. */
    method Build() returns (ok: bool, root: Node)
      requires Valid()
      ensures ok <==> completed
      ensures ok ==> BuildStep(Snapshot()) == Some(root)
    {
      if !completed {
        return false, Null;
      }
      return true, stack[0];
    }
  }
}
