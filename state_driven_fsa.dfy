/**
 * `Base::StateDrivenFSA`: a handler driven by the requested state. The table
 * maps (current state, requested state) to one edge; processing checks the
 * edge's guard, writes the new state and the resolved `set` values in one
 * update, and then runs the edge's `after` callback with the snapshot read
 * at construction.
 */
module StateDrivenFsa {
  import opened Wrappers
  import opened Values
  import opened Errors
  import opened Guards
  import opened EdgeOptions
  import opened StateDrivenEdgeInfo
  import opened CaseStore
  import opened RequestStore
  import opened Outbox
  import opened Scheduling
  import opened Callbacks

  /** (current state or nil, requested state). */
  type Key = (Value, string)

  type Table<P> = map<Key, EdgeInfo<P>>

  /** The handler's first argument: a case record, or any other object. */
  datatype CaseArg = IsCase(record: CaseRecord) | NotACase

  /** The handler's `params` argument: a Hash, nil, or any other object. */
  datatype ParamsArg = ParamsHash(entries: map<Name, Value>) | ParamsNil | ParamsOther

  /** The fields the constructor sets. */
  datatype Handler = Handler(record: CaseRecord, state: string, params: map<Name, Value>, attrs: Snapshot)

  /** `all_needed_attrs`: `state` and every name some edge needs. */
  function AllNeededAttrs<P>(table: Table<P>): (r: set<Name>)
    ensures "state" in r
    ensures forall k, n :: k in table && n in table[k].need ==> n in r
    ensures forall n :: n in r ==> n == "state" || exists k :: k in table && n in table[k].need
  {
    {"state"} + set k, n | k in table && n in table[k].need :: n
  }

  /**
   * `new(c4s3, state, params)`: the case check, then the type check, then
   * the `params` check; only a handler that passes all three fetches the
   * needed attributes of its case.
   */
  function New<P>(table: Table<P>, store: Attributes, c: CaseArg, state: string, params: ParamsArg): (r: Result<Handler, Error>)
    ensures c.NotACase? ==> r == Failure(CaseInvalidClass)
    ensures c.IsCase? && c.record.caseType != HandlerType ==> r == Failure(CaseBadType(c.record.caseType))
    ensures c.IsCase? && c.record.caseType == HandlerType && !params.ParamsHash? ==> r == Failure(ParamsInvalidClass)
    ensures r.Success? <==> c.IsCase? && c.record.caseType == HandlerType && params.ParamsHash?
    ensures r.Success? ==>
      r.value.record == c.record && r.value.state == state && r.value.params == params.entries
      && (forall n :: n in r.value.attrs <==> n in AttributesOf(store, c.record.id) && n in AllNeededAttrs(table))
      && (forall n :: n in r.value.attrs ==> r.value.attrs[n] == AttributesOf(store, c.record.id)[n])
  {
    if c.NotACase? then Failure(CaseInvalidClass)
    else if c.record.caseType != HandlerType then Failure(CaseBadType(c.record.caseType))
    else if !params.ParamsHash? then Failure(ParamsInvalidClass)
    else Success(Handler(c.record, state, params.entries, ShowAttributes(store, c.record.id, Some(AllNeededAttrs(table)))))
  }

  /** The outcome of resolving one `set` descriptor. */
  datatype Resolved = Write(value: Value) | Skip

  /**
   * `extract_value(name, skip)`: a handler method of that name, else a
   * `params` key, else the name itself, or nothing when `skip` is set.
   */
  function ExtractValue(name: Name, skip: bool, accessor: Name -> Option<Value>, params: map<Name, Value>): Resolved
  {
    if accessor(name).Some? then Write(accessor(name).value)
    else if name in params then Write(params[name])
    else if skip then Skip
    else Write(Some(name))
  }

  /** `obtain_value(value_info)`. */
  function ObtainValue(d: Descriptor, accessor: Name -> Option<Value>, params: map<Name, Value>): (r: Resolved)
    ensures d.DNil? ==> r == Write(None)
    ensures (d.DStr? || d.DSym?) && accessor(d.s).Some? ==> r == Write(accessor(d.s).value)
    ensures (d.DStr? || d.DSym?) && accessor(d.s).None? && d.s in params ==> r == Write(params[d.s])
    ensures d.DStr? && accessor(d.s).None? && d.s !in params ==> r == Write(Some(d.s))
    ensures d.DSym? && accessor(d.s).None? && d.s !in params ==> r == Skip
    ensures r.Skip? ==> d.DSym?
  {
    match d
    case DNil => Write(None)
    case DStr(s) => ExtractValue(s, false, accessor, params)
    case DSym(s) => ExtractValue(s, true, accessor, params)
    case DOther(repr) => Write(Some(repr))
  }

  /** `new_case_attributes(edge_info)`: every `set` entry whose value is not skipped. */
  function NewCaseAttributes(assigns: Option<map<Name, Descriptor>>, accessor: Name -> Option<Value>,
                             params: map<Name, Value>): (r: map<Name, Value>)
    ensures assigns.None? ==> r == map[]
    ensures forall k :: k in r <==> assigns.Some? && k in assigns.value && ObtainValue(assigns.value[k], accessor, params).Write?
    ensures forall k :: k in r ==> r[k] == ObtainValue(assigns.value[k], accessor, params).value
  {
    if assigns.None? then map[]
    else
      var m := assigns.value;
      map k | k in m && ObtainValue(m[k], accessor, params).Write? :: ObtainValue(m[k], accessor, params).value
  }

  /**
   * A `set` hash that binds `fields` to their own symbols and then
   * binds three further names: the copied names follow the parameters, and
   * each further name is written as its descriptor resolves.
   */
  lemma CopiedThenBound(m: map<Name, Descriptor>, fields: seq<Name>, k1: Name, d1: Descriptor, k2: Name, d2: Descriptor, k3: Name, d3: Descriptor,
                        accessor: Name -> Option<Value>, params: map<Name, Value>)
    requires k1 !in fields && k2 !in fields && k3 !in fields && k1 != k2 && k1 != k3 && k2 != k3
    requires forall i :: 0 <= i < |fields| ==> fields[i] in m && m[fields[i]] == DSym(fields[i]) && accessor(fields[i]).None?
    ensures var w := NewCaseAttributes(Some(m[k1 := d1][k2 := d2][k3 := d3]), accessor, params);
      && (forall i :: 0 <= i < |fields| ==> (fields[i] in w <==> fields[i] in params) && (fields[i] in w ==> w[fields[i]] == params[fields[i]]))
      && (k1 in w <==> ObtainValue(d1, accessor, params).Write?) && (k1 in w ==> w[k1] == ObtainValue(d1, accessor, params).value)
      && (k2 in w <==> ObtainValue(d2, accessor, params).Write?) && (k2 in w ==> w[k2] == ObtainValue(d2, accessor, params).value)
      && (k3 in w <==> ObtainValue(d3, accessor, params).Write?) && (k3 in w ==> w[k3] == ObtainValue(d3, accessor, params).value)
  {
  }

  /**
   * A `set` hash that binds `fields` and one further name `extra` to nil
   * and then binds two more names: the blanked names are written as nil,
   * and each bound name as its descriptor resolves.
   */
  lemma BlankedThenBound(m: map<Name, Descriptor>, fields: seq<Name>, extra: Name, k1: Name, d1: Descriptor, k2: Name, d2: Descriptor,
                         accessor: Name -> Option<Value>, params: map<Name, Value>)
    requires k1 !in fields && k2 !in fields && k1 != k2 && k1 != extra && k2 != extra
    requires forall i :: 0 <= i < |fields| ==> fields[i] in m && m[fields[i]] == DNil
    requires extra in m && m[extra] == DNil
    ensures var w := NewCaseAttributes(Some(m[k1 := d1][k2 := d2]), accessor, params);
      && (forall i :: 0 <= i < |fields| ==> fields[i] in w && w[fields[i]] == None)
      && extra in w && w[extra] == None
      && (k1 in w <==> ObtainValue(d1, accessor, params).Write?) && (k1 in w ==> w[k1] == ObtainValue(d1, accessor, params).value)
      && (k2 in w <==> ObtainValue(d2, accessor, params).Write?) && (k2 in w ==> w[k2] == ObtainValue(d2, accessor, params).value)
  {
  }


  /** A `set` hash of three entries that all resolve to values writes exactly those values. */
  lemma BoundExactly(k1: Name, d1: Descriptor, k2: Name, d2: Descriptor, k3: Name, d3: Descriptor,
                     accessor: Name -> Option<Value>, params: map<Name, Value>)
    requires k1 != k2 && k1 != k3 && k2 != k3
    requires ObtainValue(d1, accessor, params).Write? && ObtainValue(d2, accessor, params).Write?
    requires ObtainValue(d3, accessor, params).Write?
    ensures NewCaseAttributes(Some(map[k1 := d1, k2 := d2, k3 := d3]), accessor, params)
      == map[k1 := ObtainValue(d1, accessor, params).value, k2 := ObtainValue(d2, accessor, params).value,
             k3 := ObtainValue(d3, accessor, params).value]
  {
  }

  /** `new_case_attributes` as the source builds it: one `set` entry at a time. */
  method BuildNewCaseAttributes(assigns: Option<map<Name, Descriptor>>, accessor: Name -> Option<Value>,
                                params: map<Name, Value>) returns (memo: map<Name, Value>)
    ensures memo == NewCaseAttributes(assigns, accessor, params)
  {
    memo := map[];
    if assigns.None? {
      return;
    }
    var entries := assigns.value;
    var todo := entries.Keys;
    while todo != {}
      invariant todo <= entries.Keys
      invariant forall k :: k in memo <==> k in entries && k !in todo && ObtainValue(entries[k], accessor, params).Write?
      invariant forall k :: k in memo ==> memo[k] == ObtainValue(entries[k], accessor, params).value
      decreases todo
    {
      var key :| key in todo;
      var resolved := ObtainValue(entries[key], accessor, params);
      if resolved.Write? {
        memo := memo[key := resolved.value];
      }
      todo := todo - {key};
    }
  }

  /** The lookup key of `process`. */
  function KeyOf(h: Handler): Key
  {
    (Lookup(h.attrs, "state"), h.state)
  }

  /**
   * `invoke_check`: a guard blocks only when it returns exactly `false`;
   * then `raise < RuntimeError` is asked, which raises `NoMethodError` when
   * the edge has no `raise`, and the edge's class is raised when it is below
   * `RuntimeError`.
   */
  function InvokeCheck<P>(e: EdgeInfo<P>, attrs: Snapshot, holds: P -> bool): (r: Outcome<Error>)
    ensures r.Fail? <==>
      e.check.Some? && Eval(e.check.value, attrs, holds) == RFalse
      && (e.raise.None? || e.raise.value.belowRuntimeError)
    ensures r.Fail? && e.raise.None? ==> r.error == NoMethod("raise")
    ensures r.Fail? && e.raise.Some? ==> r.error == GuardRejected(e.raise.value)
  {
    if e.check.None? || Eval(e.check.value, attrs, holds) != RFalse then Pass
    else if e.raise.None? then Fail(NoMethod("raise"))
    else if e.raise.value.belowRuntimeError then Fail(GuardRejected(e.raise.value))
    else Pass
  }

  // The guard shapes the tables use, each with a `raise` class below
  // `RuntimeError`: the edge passes exactly when the guard holds, and
  // raises its class otherwise.

  /** No guard: the edge always passes. */
  lemma UnguardedPasses<P>(e: EdgeInfo<P>, attrs: Snapshot, holds: P -> bool)
    requires e.check.None?
    ensures InvokeCheck(e, attrs, holds) == Pass
  {
  }

  /** `check: -> { p? }`. */
  lemma PredGuard<P>(e: EdgeInfo<P>, p: P, attrs: Snapshot, holds: P -> bool)
    requires e.check == Some(Pred(p)) && e.raise.Some? && e.raise.value.belowRuntimeError
    ensures InvokeCheck(e, attrs, holds) == if holds(p) then Pass else Fail(GuardRejected(e.raise.value))
  {
    assert Eval(Pred(p), attrs, holds) == FromBool(holds(p));
  }

  /** `check: -> { !p? }`. */
  lemma NotPredGuard<P>(e: EdgeInfo<P>, p: P, attrs: Snapshot, holds: P -> bool)
    requires e.check == Some(Not(Pred(p))) && e.raise.Some? && e.raise.value.belowRuntimeError
    ensures InvokeCheck(e, attrs, holds) == if !holds(p) then Pass else Fail(GuardRejected(e.raise.value))
  {
    assert Eval(Pred(p), attrs, holds) == FromBool(holds(p));
    assert Eval(Not(Pred(p)), attrs, holds) == FromBool(!holds(p));
  }

  /** `check: -> { !p? && !q? }`. */
  lemma NeitherPredGuard<P>(e: EdgeInfo<P>, p: P, q: P, attrs: Snapshot, holds: P -> bool)
    requires e.check == Some(And(Not(Pred(p)), Not(Pred(q)))) && e.raise.Some? && e.raise.value.belowRuntimeError
    ensures InvokeCheck(e, attrs, holds) == if !holds(p) && !holds(q) then Pass else Fail(GuardRejected(e.raise.value))
  {
    assert Eval(Pred(p), attrs, holds) == FromBool(holds(p));
    assert Eval(Pred(q), attrs, holds) == FromBool(holds(q));
    assert Eval(Not(Pred(p)), attrs, holds) == FromBool(!holds(p));
    assert Eval(Not(Pred(q)), attrs, holds) == FromBool(!holds(q));
  }

  /** `check: -> { p? || q? }`. */
  lemma EitherPredGuard<P>(e: EdgeInfo<P>, p: P, q: P, attrs: Snapshot, holds: P -> bool)
    requires e.check == Some(Or(Pred(p), Pred(q))) && e.raise.Some? && e.raise.value.belowRuntimeError
    ensures InvokeCheck(e, attrs, holds) == if holds(p) || holds(q) then Pass else Fail(GuardRejected(e.raise.value))
  {
    assert Eval(Pred(p), attrs, holds) == FromBool(holds(p));
    assert Eval(Pred(q), attrs, holds) == FromBool(holds(q));
  }

  /** The store update and callback a successful `process` issues. */
  datatype Commit = Commit(caseId: CaseId, changes: map<Name, Value>, after: Option<Callback>, snapshot: Snapshot)

  /**
   * `process`: the edge lookup, then the guard; on success, one update of
   * the case with `state` set to the requested state plus the resolved
   * `set` entries, and the edge's callback with the snapshot.
   */
  function Process<P>(table: Table<P>, h: Handler, holds: P -> bool, accessor: Name -> Option<Value>): (r: Result<Commit, Error>)
    ensures KeyOf(h) !in table ==> r == Failure(EdgeAbsent(KeyOf(h).0, h.state))
    ensures KeyOf(h) in table && InvokeCheck(table[KeyOf(h)], h.attrs, holds).Fail? ==>
      r == Failure(InvokeCheck(table[KeyOf(h)], h.attrs, holds).error)
    ensures r.Success? <==> KeyOf(h) in table && InvokeCheck(table[KeyOf(h)], h.attrs, holds).Pass?
    ensures r.Success? ==>
      var e := table[KeyOf(h)];
      r.value.caseId == h.record.id && r.value.after == e.after && r.value.snapshot == h.attrs
      && "state" in r.value.changes
      && (forall n :: n in r.value.changes <==> n == "state" || n in NewCaseAttributes(e.assigns, accessor, h.params))
      && (forall n :: n in NewCaseAttributes(e.assigns, accessor, h.params) ==>
            r.value.changes[n] == NewCaseAttributes(e.assigns, accessor, h.params)[n])
      && ("state" !in NewCaseAttributes(e.assigns, accessor, h.params) ==> r.value.changes["state"] == Some(h.state))
  {
    var key := KeyOf(h);
    if key !in table then Failure(EdgeAbsent(key.0, h.state))
    else
      var e := table[key];
      var check := InvokeCheck(e, h.attrs, holds);
      if check.Fail? then Failure(check.error)
      else Success(Commit(h.record.id, map["state" := Some(h.state)] + NewCaseAttributes(e.assigns, accessor, h.params), e.after, h.attrs))
  }

  /**
   * After a transition, an attribute the edge's `set` does not name keeps
   * its prior value, and other cases are untouched.
   */
  lemma UnnamedAttributesKept<P>(table: Table<P>, h: Handler, holds: P -> bool, accessor: Name -> Option<Value>,
                                  store: Attributes, n: Name)
    requires Process(table, h, holds, accessor).Success?
    requires n != "state"
    requires var e := table[KeyOf(h)]; e.assigns.None? || n !in e.assigns.value
    ensures var c := Process(table, h, holds, accessor).value;
      Lookup(AttributesOf(Updated(store, [c.caseId], c.changes), c.caseId), n) == Lookup(AttributesOf(store, c.caseId), n)
  {
    var c := Process(table, h, holds, accessor).value;
    UpdateEffect(store, [c.caseId], c.changes);
  }

  /**
   * `process` against the stores: a failure changes nothing; a success
   * issues the single case update of `Process` and then the callback.
   */
  method Run<P>(table: Table<P>, h: Handler, holds: P -> bool, accessor: Name -> Option<Value>, messageId: string,
                cases: Cases, requests: Requests, broker: Broker, scheduler: Scheduler) returns (r: Outcome<Error>)
    requires requests.Valid()
    modifies cases, requests, broker, scheduler
    ensures requests.Valid()
    ensures Process(table, h, holds, accessor).Failure? ==>
      r == Fail(Process(table, h, holds, accessor).error) && unchanged(cases, requests, broker, scheduler)
    ensures Process(table, h, holds, accessor).Success? ==>
      var c := Process(table, h, holds, accessor).value;
      cases.records == old(cases.records)
      && cases.attributes == Updated(old(cases.attributes), [c.caseId], c.changes)
      && (Observe(requests, broker, scheduler), r) == AfterRun(c.after, c.caseId, c.snapshot, messageId, old(Observe(requests, broker, scheduler)))
  {
    var p := Process(table, h, holds, accessor);
    if p.Failure? {
      return Fail(p.error);
    }
    var e := table[KeyOf(h)];
    var attrs := BuildNewCaseAttributes(e.assigns, accessor, h.params);
    cases.Update([h.record.id], map["state" := Some(h.state)] + attrs);
    r := RunAfter(e.after, h.record.id, h.attrs, messageId, requests, broker, scheduler);
  }
}
