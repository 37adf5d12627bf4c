/**
 * The projection/result mapping of the client's types.
 *
 * TypeScript computes `Projection<T>` and `Result<T, P>` at the type level; here a `Schema` stands
 * for a data-model type T, a `Proj` for a projection object P, `ProjectionOf(p, t)` for
 * "P extends Projection<T>", `ResultType(p, t)` for `Result<T, P>` and `Apply(p, t, v)` for the
 * value a projected query yields for a record v of type T.
 */
module Types {
  import opened Wrappers

  /** A JavaScript value as the client sees it in a decoded JSON response, plus `undefined`. */
  datatype Value =
    | Undefined
    | Null
    | Bool(b: bool)
    | Num(n: int)
    | Str(s: string)
    | Obj(fields: map<string, Value>)
    | Arr(items: seq<Value>)

  /** JavaScript truthiness; numbers are integers here, so NaN does not arise. */
  predicate Truthy(v: Value)
  {
    match v
    case Undefined => false
    case Null => false
    case Bool(b) => b
    case Num(n) => n != 0
    case Str(s) => s != ""
    case Obj(_) => true
    case Arr(_) => true
  }

  /** A type of the data model. */
  datatype Schema =
    | Prim                               // null | string | number | boolean | undefined
    | Undef                              // exactly `undefined`: a deselected key of a result
    | Record(fields: map<string, Schema>)
    | ArrayOf(elem: Schema)

  predicate IsScalar(t: Schema)
  {
    t.Prim? || t.Undef?
  }

  /** The shapes the data model uses: an array holds records or scalars, never arrays. */
  predicate WellFormed(t: Schema)
  {
    match t
    case Record(fs) => forall k :: k in fs ==> WellFormed(fs[k])
    case ArrayOf(u) => !u.ArrayOf? && WellFormed(u)
    case _ => true
  }

  /** v is a value of type t. Records may carry more keys than their type names. */
  predicate Conforms(v: Value, t: Schema)
  {
    match t
    case Prim => v.Undefined? || v.Null? || v.Bool? || v.Num? || v.Str?
    case Undef => v.Undefined?
    case Record(fs) => v.Obj? && forall k :: k in fs ==> k in v.fields && Conforms(v.fields[k], fs[k])
    case ArrayOf(u) => v.Arr? && forall i :: 0 <= i < |v.items| ==> Conforms(v.items[i], u)
  }

  // ---------------------------------------------------------------------------------------
  // Projection objects

  /** A projection object: each key maps to a boolean or to a nested projection object. */
  datatype Proj = Flag(on: bool) | Node(entries: seq<(string, Proj)>)

  function Keys(es: seq<(string, Proj)>): set<string>
  {
    if es == [] then {} else {es[0].0} + Keys(es[1..])
  }

  /** A JavaScript object has each key once. */
  predicate UniqueKeys(es: seq<(string, Proj)>)
  {
    forall i, j :: 0 <= i < j < |es| ==> es[i].0 != es[j].0
  }

  /** The value a projection object holds for key k. */
  function Lookup(es: seq<(string, Proj)>, k: string): Proj
    requires k in Keys(es)
  {
    if es[0].0 == k then es[0].1 else Lookup(es[1..], k)
  }

  /**
   * `P extends Projection<T>`, with arrays of scalars selectable by a boolean (see
   * `FieldSelects`): T is a record, every key is optional, a key that T also has holds what that
   * field's type admits; keys T does not have are left unconstrained, as structural typing
   * leaves them (TypeScript's weak-type check, which rejects a projection sharing no key with T,
   * is not modelled). Every projection the rule as written accepts is accepted here too
   * (`AsWrittenIsProjection`).
   */
  predicate ProjectionOf(p: Proj, t: Schema)
    decreases t, 0
  {
    p.Node? && t.Record? && UniqueKeys(p.entries) &&
    forall k :: k in Keys(p.entries) && k in t.fields ==> FieldSelects(Lookup(p.entries, k), t.fields[k])
  }

  /**
   * What `Projection<T>[K]` admits for a field of type ft: a boolean for a scalar, a nested
   * projection object for a record, a nested projection object of the element type for an array
   * of records, and a boolean for an array of scalars. The last case is the corrected rule: as
   * written, an array of scalars admits no boolean or object (`FieldSelectsAsWritten`).
   */
  predicate FieldSelects(q: Proj, ft: Schema)
    decreases ft, 1
  {
    match ft
    case Record(_) => ProjectionOf(q, ft)
    case ArrayOf(u) => if u.Record? then ProjectionOf(q, u) else IsScalar(u) && q.Flag?
    case _ => q.Flag?
  }

  /**
   * `Projection<T>` as it is written: for an array field it admits `Projection<U>` of the element
   * type U, and for a scalar U TypeScript evaluates that mapped type to U itself, which neither a
   * boolean nor a projection object inhabits.
   */
  predicate ProjectionOfAsWritten(p: Proj, t: Schema)
    decreases t, 0
  {
    p.Node? && t.Record? && UniqueKeys(p.entries) &&
    forall k :: k in Keys(p.entries) && k in t.fields ==> FieldSelectsAsWritten(Lookup(p.entries, k), t.fields[k])
  }

  predicate FieldSelectsAsWritten(q: Proj, ft: Schema)
    decreases ft, 1
  {
    match ft
    case Record(_) => ProjectionOfAsWritten(q, ft)
    case ArrayOf(u) => u.Record? && ProjectionOfAsWritten(q, u)
    case _ => q.Flag?
  }

  /** The corrected rule only widens the written one: what the source accepts stays valid. */
  lemma {:induction false} AsWrittenIsProjection(p: Proj, t: Schema)
    requires ProjectionOfAsWritten(p, t)
    ensures ProjectionOf(p, t)
    decreases t, 0
  {
    forall k | k in Keys(p.entries) && k in t.fields
      ensures FieldSelects(Lookup(p.entries, k), t.fields[k])
    {
      FieldAsWrittenSelects(Lookup(p.entries, k), t.fields[k]);
    }
  }

  lemma {:induction false} FieldAsWrittenSelects(q: Proj, ft: Schema)
    requires FieldSelectsAsWritten(q, ft)
    ensures FieldSelects(q, ft)
    decreases ft, 1
  {
    match ft
    case Record(_) => AsWrittenIsProjection(q, ft);
    case ArrayOf(u) => AsWrittenIsProjection(q, u);
    case _ =>
  }

  // ---------------------------------------------------------------------------------------
  // Results

  /** `Result<T, P>`: the keys of both, each typed by what its projection entry asks for. */
  function ResultType(p: Proj, t: Schema): (r: Schema)
    requires ProjectionOf(p, t)
    ensures r.Record? && r.fields.Keys == Keys(p.entries) * t.fields.Keys
    decreases t, 0
  {
    Record(map k | k in Keys(p.entries) && k in t.fields :: FieldResult(Lookup(p.entries, k), t.fields[k]))
  }

  /** `Result<T, P>[K]`: `undefined` for false, T[K] for true, an array of sub-results or a sub-result. */
  function FieldResult(q: Proj, ft: Schema): Schema
    requires FieldSelects(q, ft)
    decreases ft, 1
  {
    if q.Flag? then (if q.on then ft else Undef)
    else if ft.ArrayOf? then ArrayOf(ResultType(q, ft.elem))
    else ResultType(q, ft)
  }

  /** The value a query projected by p yields for a record v of type t. */
  function Apply(p: Proj, t: Schema, v: Value): (r: Value)
    requires ProjectionOf(p, t) && Conforms(v, t)
    ensures r.Obj? && r.fields.Keys == Keys(p.entries) * t.fields.Keys
    decreases t, 0
  {
    Obj(map k | k in Keys(p.entries) && k in t.fields ::
      ApplyField(Lookup(p.entries, k), t.fields[k], v.fields[k]))
  }

  function ApplyField(q: Proj, ft: Schema, fv: Value): Value
    requires FieldSelects(q, ft) && Conforms(fv, ft)
    decreases ft, 1
  {
    if q.Flag? then (if q.on then fv else Undefined)
    else if ft.ArrayOf? then Arr(seq(|fv.items|, i requires 0 <= i < |fv.items| => Apply(q, ft.elem, fv.items[i])))
    else Apply(q, ft, fv)
  }

  // ---------------------------------------------------------------------------------------
  // Properties of the mapping

  /** A result has exactly the keys that the projection and the source type share. */
  lemma ResultKeys(p: Proj, t: Schema, v: Value)
    requires ProjectionOf(p, t) && Conforms(v, t)
    ensures Apply(p, t, v).fields.Keys == Keys(p.entries) * t.fields.Keys
    ensures ResultType(p, t).fields.Keys == Keys(p.entries) * t.fields.Keys
  {
  }

  /**
   * Field by field: false gives undefined, true keeps the source value, a nested projection
   * over an array keeps its length and order and projects each element, and over a record
   * projects the record.
   */
  lemma ResultField(p: Proj, t: Schema, v: Value, k: string)
    requires ProjectionOf(p, t) && Conforms(v, t)
    requires k in Keys(p.entries) && k in t.fields
    ensures FieldSelects(Lookup(p.entries, k), t.fields[k]) && Conforms(v.fields[k], t.fields[k])
    ensures var q, ft, fv, r := Lookup(p.entries, k), t.fields[k], v.fields[k], Apply(p, t, v).fields[k];
      && (q == Flag(false) ==> r == Undefined)
      && (q == Flag(true) ==> r == fv)
      && (q.Node? && ft.ArrayOf? ==>
            ProjectionOf(q, ft.elem) && fv.Arr? && r.Arr? && |r.items| == |fv.items| &&
            forall i :: 0 <= i < |fv.items| ==>
              Conforms(fv.items[i], ft.elem) && r.items[i] == Apply(q, ft.elem, fv.items[i]))
      && (q.Node? && ft.Record? ==> ProjectionOf(q, ft) && r == Apply(q, ft, fv))
  {
  }

  /** The runtime mapping agrees with the type-level one: a result has the type `Result<T, P>`. */
  lemma {:induction false} ApplyConforms(p: Proj, t: Schema, v: Value)
    requires ProjectionOf(p, t) && Conforms(v, t)
    ensures Conforms(Apply(p, t, v), ResultType(p, t))
    decreases t, 0
  {
    var r, rt := Apply(p, t, v), ResultType(p, t);
    forall k | k in rt.fields
      ensures k in r.fields && Conforms(r.fields[k], rt.fields[k])
    {
      ApplyFieldConforms(Lookup(p.entries, k), t.fields[k], v.fields[k]);
    }
  }

  lemma {:induction false} ApplyFieldConforms(q: Proj, ft: Schema, fv: Value)
    requires FieldSelects(q, ft) && Conforms(fv, ft)
    ensures Conforms(ApplyField(q, ft, fv), FieldResult(q, ft))
    decreases ft, 1
  {
    if q.Flag? {
    } else if ft.ArrayOf? {
      var r := ApplyField(q, ft, fv);
      forall i | 0 <= i < |r.items|
        ensures Conforms(r.items[i], ResultType(q, ft.elem))
      {
        ApplyConforms(q, ft.elem, fv.items[i]);
      }
    } else {
      ApplyConforms(q, ft, fv);
    }
  }

  /** A projection is also a projection of its own result type. */
  lemma {:induction false} ProjectionOfResult(p: Proj, t: Schema)
    requires ProjectionOf(p, t)
    ensures ProjectionOf(p, ResultType(p, t))
    decreases t, 0
  {
    var rt := ResultType(p, t);
    forall k | k in Keys(p.entries) && k in rt.fields
      ensures FieldSelects(Lookup(p.entries, k), rt.fields[k])
    {
      FieldSelectsResult(Lookup(p.entries, k), t.fields[k]);
    }
  }

  lemma {:induction false} FieldSelectsResult(q: Proj, ft: Schema)
    requires FieldSelects(q, ft)
    ensures FieldSelects(q, FieldResult(q, ft))
    decreases ft, 1
  {
    if q.Flag? {
    } else if ft.ArrayOf? {
      ProjectionOfResult(q, ft.elem);
    } else {
      ProjectionOfResult(q, ft);
    }
  }

  /** Projecting a result again by the same projection changes nothing. */
  lemma {:induction false} ApplyIdempotent(p: Proj, t: Schema, v: Value)
    requires ProjectionOf(p, t) && Conforms(v, t)
    ensures ProjectionOf(p, ResultType(p, t)) && Conforms(Apply(p, t, v), ResultType(p, t))
    ensures Apply(p, ResultType(p, t), Apply(p, t, v)) == Apply(p, t, v)
    decreases t, 0
  {
    ProjectionOfResult(p, t);
    ApplyConforms(p, t, v);
    var rt, w := ResultType(p, t), Apply(p, t, v);
    var w2 := Apply(p, rt, w);
    forall k | k in w.fields
      ensures k in w2.fields && w2.fields[k] == w.fields[k]
    {
      ApplyFieldIdempotent(Lookup(p.entries, k), t.fields[k], v.fields[k]);
    }
    assert w2.fields == w.fields;
  }

  lemma {:induction false} ApplyFieldIdempotent(q: Proj, ft: Schema, fv: Value)
    requires FieldSelects(q, ft) && Conforms(fv, ft)
    ensures FieldSelects(q, FieldResult(q, ft)) && Conforms(ApplyField(q, ft, fv), FieldResult(q, ft))
    ensures ApplyField(q, FieldResult(q, ft), ApplyField(q, ft, fv)) == ApplyField(q, ft, fv)
    decreases ft, 1
  {
    FieldSelectsResult(q, ft);
    ApplyFieldConforms(q, ft, fv);
    if q.Flag? {
    } else if ft.ArrayOf? {
      var w := ApplyField(q, ft, fv);
      var w2 := ApplyField(q, FieldResult(q, ft), w);
      forall i | 0 <= i < |w.items|
        ensures w2.items[i] == w.items[i]
      {
        ApplyIdempotent(q, ft.elem, fv.items[i]);
      }
      assert w2.items == w.items;
    } else {
      ApplyIdempotent(q, ft, fv);
    }
  }

  /** Every key is optional: an empty projection object is a projection of every record type. */
  lemma EmptyProjection(t: Schema)
    requires t.Record?
    ensures ProjectionOf(Node([]), t) && ResultType(Node([]), t) == Record(map[])
  {
  }

  /** Dropping a key from a projection object leaves a projection of the same type. */
  lemma {:induction false} DropKey(es: seq<(string, Proj)>, t: Schema, i: int)
    requires ProjectionOf(Node(es), t) && 0 <= i < |es|
    ensures ProjectionOf(Node(es[..i] + es[i + 1..]), t)
  {
    var ds := es[..i] + es[i + 1..];
    forall k | k in Keys(ds)
      ensures k in Keys(es) && Lookup(ds, k) == Lookup(es, k)
    {
      LookupIndex(ds, k);
      var j :| 0 <= j < |ds| && ds[j].0 == k && Lookup(ds, k) == ds[j].1;
      var j' := if j < i then j else j + 1;
      assert es[j'] == ds[j];
      IndexLookup(es, j');
    }
  }

  /** Lookup finds the entry of its key. */
  lemma {:induction false} LookupIndex(es: seq<(string, Proj)>, k: string)
    requires k in Keys(es)
    ensures exists j :: 0 <= j < |es| && es[j].0 == k && Lookup(es, k) == es[j].1
  {
    if es[0].0 != k {
      LookupIndex(es[1..], k);
      var j :| 0 <= j < |es[1..]| && es[1..][j].0 == k && Lookup(es[1..], k) == es[1..][j].1;
      assert es[j + 1] == es[1..][j];
    }
  }

  /** With unique keys, the entry at index j is what its key looks up. */
  lemma {:induction false} IndexLookup(es: seq<(string, Proj)>, j: int)
    requires UniqueKeys(es) && 0 <= j < |es|
    ensures es[j].0 in Keys(es) && Lookup(es, es[j].0) == es[j].1
  {
    if j > 0 {
      assert UniqueKeys(es[1..]) by {
        forall a, b | 0 <= a < b < |es[1..]| ensures es[1..][a].0 != es[1..][b].0 {
          assert es[1..][a] == es[a + 1] && es[1..][b] == es[b + 1];
        }
      }
      IndexLookup(es[1..], j - 1);
      assert es[1..][j - 1] == es[j];
      assert es[0].0 != es[j].0;
    }
  }

  // ---------------------------------------------------------------------------------------
  // Arrays of scalars

  /** The field type of a selector for every field: a flag for scalars, an empty object otherwise. */
  function Selector(ft: Schema): Proj
  {
    if ft.Record? || (ft.ArrayOf? && ft.elem.Record?) then Node([]) else Flag(true)
  }

  /** As written, no projection object selects an array-of-scalars field such as `permissions`. */
  lemma ScalarArrayUnselectableAsWritten(q: Proj)
    ensures !ProjectionOfAsWritten(Node([("permissions", q)]), Record(map["permissions" := ArrayOf(Prim)]))
  {
    SingleKey("permissions", q);
  }

  /** Corrected: every field of a well-formed record type can be selected on its own. */
  lemma EveryFieldSelectable(fs: map<string, Schema>, k: string)
    requires WellFormed(Record(fs)) && k in fs
    ensures ProjectionOf(Node([(k, Selector(fs[k]))]), Record(fs))
  {
    SingleKey(k, Selector(fs[k]));
    SelectorSelects(fs[k]);
  }

  lemma SelectorSelects(ft: Schema)
    requires WellFormed(ft)
    ensures FieldSelects(Selector(ft), ft)
  {
    if ft.ArrayOf? {
      assert !ft.elem.ArrayOf?;
      if ft.elem.Record? {
        assert Keys([]) == {};
      }
    } else if ft.Record? {
      assert Keys([]) == {};
    }
  }

  /** A one-entry projection object. */
  lemma SingleKey(k: string, q: Proj)
    ensures Keys([(k, q)]) == {k} && Lookup([(k, q)], k) == q && UniqueKeys([(k, q)])
  {
    assert [(k, q)][1..] == [];
  }

  /** Corrected: `true` selects an array of scalars whole, as `Result`'s `true` branch keeps T[K]. */
  lemma ScalarArrayKeptByFlag(v: Value)
    requires Conforms(v, ArrayOf(Prim))
    ensures var t := Record(map["permissions" := ArrayOf(Prim)]);
      var p := Node([("permissions", Flag(true))]);
      ProjectionOf(p, t) &&
      Apply(p, t, Obj(map["permissions" := v])) == Obj(map["permissions" := v])
  {
    SingleKey("permissions", Flag(true));
  }

  // ---------------------------------------------------------------------------------------
  // Envelopes and transactions

  /** An error entry of a response envelope. */
  datatype ApiError = ApiError(message: string, name: string, timeThrown: string, data: Value)

  /**
   * A response envelope: the optional error list and the data object, whose keys are the
   * functions invoked and whose values are their (possibly null) results. `None` stands for a
   * missing or null data object.
   */
  datatype Response = Response(errors: Option<seq<ApiError>>, data: Option<map<string, Value>>)

  /** A transfer to check against the token contract; the quantity in base units. */
  datatype Transaction = Transaction(tokenAddress: string, fromWallet: string, toWallet: string, qtyBaseUnits: nat)

  // ---------------------------------------------------------------------------------------
  // Client options

  /** A web3 instance handed to the client; the contract calls it makes are parameters of the model. */
  datatype Provider = Provider(id: nat)

  /** The transport: `node-fetch` unless the caller injects another function. */
  datatype Transport = NodeFetch | Injected(id: nat)

  /** `ClientOptions` once defaults are filled in. */
  datatype ClientOptions = ClientOptions(maxTimecacheAgeMs: int, web3: Option<Provider>, fetch: Transport)

  /** `Partial<ClientOptions>`: each option given or not. */
  datatype PartialOptions = PartialOptions(maxTimecacheAgeMs: Option<int>, web3: Option<Provider>, fetch: Option<Transport>)
}
