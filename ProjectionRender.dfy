/**
 * `constructProjection`: renders a projection object as a GraphQL selection set (section 2.4 of
 * the GraphQL specification), with a parser for the rendered text that shows nothing but falsy
 * entries is lost.
 */
module ProjectionRender {
  import opened Wrappers
  import opened Strings
  import opened Types

  /**
   * The selection set of a projection: "{ ", the emitted entries joined by ",", then " }".
   * A boolean has no keys for `for ... in` to visit, so it renders as an empty set.
   */
  function Render(p: Proj): (s: string)
    ensures |s| >= 4 && s[..2] == "{ " && s[|s| - 2..] == " }"
    decreases p, 1, 0
  {
    match p
    case Flag(_) => "{  }"
    case Node(es) => "{ " + Join(",", Emitted(es, 0)) + " }"
  }

  /** What the entries from index i on emit, in key order. */
  function Emitted(es: seq<(string, Proj)>, i: nat): seq<string>
    requires i <= |es|
    decreases Node(es), 0, |es| - i
  {
    if i == |es| then [] else Emit(es[i].0, es[i].1) + Emitted(es, i + 1)
  }

  /** What one key emits: nothing for false, the bare key for true, the key and its set otherwise. */
  function Emit(k: string, v: Proj): seq<string>
    decreases v, 1, 1
  {
    match v
    case Flag(on) => if on then [k] else []
    case Node(_) => [k + " " + Render(v)]
  }

  /** The loop of `constructProjection`: collect one string per truthy key, recursing on nested objects. */
  method ConstructProjection(f: Proj) returns (s: string)
    ensures s == Render(f)
    decreases f
  {
    var collection: seq<string> := [];
    if f.Node? {
      var es := f.entries;
      for i := 0 to |es|
        invariant collection + Emitted(es, i) == Emitted(es, 0)
      {
        var k, val := es[i].0, es[i].1;
        // falsy values are skipped
        if val == Flag(false) {
          SkipStep(es, i);
          continue;
        }
        var item: string;
        if val == Flag(true) {
          item := k;
        } else {
          var sub := ConstructProjection(val);
          item := k + " " + sub;
        }
        PushStep(collection, es, i, item);
        collection := collection + [item];
      }
      assert collection == Emitted(es, 0);
    } else {
      assert Join(",", collection) == "";
    }
    s := "{ " + Join(",", collection) + " }";
  }

  /** A false entry emits nothing. */
  lemma SkipStep(es: seq<(string, Proj)>, i: nat)
    requires i < |es| && es[i].1 == Flag(false)
    ensures Emitted(es, i) == Emitted(es, i + 1)
  {
    assert Emitted(es, i) == Emit(es[i].0, es[i].1) + Emitted(es, i + 1);
  }

  /** Pushing what entry i emits moves the loop's split point past it. */
  lemma PushStep(collection: seq<string>, es: seq<(string, Proj)>, i: nat, item: string)
    requires i < |es| && Emit(es[i].0, es[i].1) == [item]
    ensures (collection + [item]) + Emitted(es, i + 1) == collection + Emitted(es, i)
  {
    assert Emitted(es, i) == [item] + Emitted(es, i + 1);
  }

  // ---------------------------------------------------------------------------------------
  // What rendering keeps

  /** The projection with its falsy entries removed; a boolean becomes the empty object. */
  function Normal(p: Proj): Proj
    decreases p, 1, 0
  {
    match p
    case Flag(_) => Node([])
    case Node(es) => Node(NormalFrom(es, 0))
  }

  function NormalFrom(es: seq<(string, Proj)>, i: nat): seq<(string, Proj)>
    requires i <= |es|
    decreases Node(es), 0, |es| - i
  {
    if i == |es| then [] else NormalEntry(es[i].0, es[i].1) + NormalFrom(es, i + 1)
  }

  function NormalEntry(k: string, v: Proj): seq<(string, Proj)>
    decreases v, 1, 1
  {
    match v
    case Flag(on) => if on then [(k, Flag(true))] else []
    case Node(_) => [(k, Normal(v))]
  }

  /** One emitted string per kept entry. */
  lemma {:induction false} EmittedLength(es: seq<(string, Proj)>, i: nat)
    requires i <= |es|
    ensures |Emitted(es, i)| == |NormalFrom(es, i)|
    decreases |es| - i
  {
    if i < |es| {
      EmittedLength(es, i + 1);
    }
  }

  /** An empty or all-false projection object renders as `{  }`. */
  lemma {:induction false} AllFalseRendersEmpty(es: seq<(string, Proj)>, i: nat)
    requires i <= |es|
    requires forall j :: i <= j < |es| ==> es[j].1 == Flag(false)
    ensures Emitted(es, i) == [] && NormalFrom(es, i) == []
    ensures i == 0 ==> Render(Node(es)) == "{  }"
    decreases |es| - i
  {
    if i < |es| {
      AllFalseRendersEmpty(es, i + 1);
    }
  }

  /** Falsy entries emit nothing: a projection renders exactly as its normal form. */
  lemma {:induction false} RenderNormal(p: Proj)
    ensures Render(Normal(p)) == Render(p)
    decreases p, 1, 0
  {
    match p
    case Flag(_) =>
      assert Emitted([], 0) == [];
    case Node(es) =>
      EmittedNormal(es, 0);
  }

  lemma {:induction false} EmittedNormal(es: seq<(string, Proj)>, i: nat)
    requires i <= |es|
    ensures Emitted(NormalFrom(es, i), 0) == Emitted(es, i)
    decreases Node(es), 0, |es| - i, 1
  {
    if i == |es| {
      assert NormalFrom(es, i) == [];
    } else if es[i].1 == Flag(false) {
      var k, v := es[i].0, es[i].1;
      assert NormalFrom(es, i) == NormalEntry(k, v) + NormalFrom(es, i + 1);
      assert Emitted(es, i) == Emit(k, v) + Emitted(es, i + 1);
      assert NormalEntry(k, v) == [] && Emit(k, v) == [];
      assert NormalFrom(es, i) == NormalFrom(es, i + 1) && Emitted(es, i) == Emitted(es, i + 1);
      EmittedNormal(es, i + 1);
    } else {
      EmittedNormalKept(es, i);
    }
  }

  /** The step of `EmittedNormal` for a kept entry, which emits the same text once normalised. */
  lemma {:induction false} EmittedNormalKept(es: seq<(string, Proj)>, i: nat)
    requires i < |es| && es[i].1 != Flag(false)
    ensures Emitted(NormalFrom(es, i), 0) == Emitted(es, i)
    decreases Node(es), 0, |es| - i, 0
  {
    var k, v := es[i].0, es[i].1;
    var rest := NormalFrom(es, i + 1);
    var e := (k, ItemNormal(v));
    EntryStep(es, i);
    EmittedNormal(es, i + 1);
    EmittedCons(e, rest);
    assert Emitted([e], 0) == Emit(e.0, e.1) + Emitted([e], 1);
    if v.Node? {
      RenderNormal(v);
    }
    assert Emit(e.0, e.1) == [ItemText(k, v)];
  }

  /** How a kept entry contributes to both the emitted text and the normal form. */
  lemma EntryStep(es: seq<(string, Proj)>, i: nat)
    requires i < |es| && es[i].1 != Flag(false)
    ensures Emitted(es, i) == [ItemText(es[i].0, es[i].1)] + Emitted(es, i + 1)
    ensures NormalFrom(es, i) == [(es[i].0, ItemNormal(es[i].1))] + NormalFrom(es, i + 1)
  {
    var k, v := es[i].0, es[i].1;
    assert Emitted(es, i) == Emit(k, v) + Emitted(es, i + 1);
    assert Emit(k, v) == [ItemText(k, v)];
    assert NormalFrom(es, i) == NormalEntry(k, v) + NormalFrom(es, i + 1);
    assert NormalEntry(k, v) == [(k, ItemNormal(v))];
  }

  /** Emitting from a list with one more entry in front. */
  lemma {:induction false} EmittedCons(e: (string, Proj), es: seq<(string, Proj)>)
    ensures Emitted([e] + es, 0) == Emitted([e], 0) + Emitted(es, 0)
  {
    EmittedShift(e, es, 0);
  }

  lemma {:induction false} EmittedShift(e: (string, Proj), es: seq<(string, Proj)>, i: nat)
    requires i <= |es|
    ensures Emitted([e] + es, i + 1) == Emitted(es, i)
    decreases |es| - i
  {
    if i < |es| {
      assert ([e] + es)[i + 1] == es[i];
      EmittedShift(e, es, i + 1);
    }
  }

  // ---------------------------------------------------------------------------------------
  // Reading a selection set back

  predicate NameStart(c: char)
  {
    'A' <= c <= 'Z' || 'a' <= c <= 'z' || c == '_'
  }

  predicate NameChar(c: char)
  {
    NameStart(c) || '0' <= c <= '9'
  }

  /** A GraphQL Name (section 2.1.9 of the GraphQL specification). */
  predicate IsName(k: string)
  {
    |k| > 0 && NameStart(k[0]) && forall j :: 0 <= j < |k| ==> NameChar(k[j])
  }

  /** Every key, at every depth, is a GraphQL Name. */
  predicate NamesOK(p: Proj)
  {
    match p
    case Flag(_) => true
    case Node(es) => forall i :: 0 <= i < |es| ==> IsName(es[i].0) && NamesOK(es[i].1)
  }

  /** The length of the longest prefix of name characters. */
  function NameLen(s: string): (n: nat)
    ensures n <= |s|
  {
    if s == [] || !NameChar(s[0]) then 0 else 1 + NameLen(s[1..])
  }

  /** Reads a selection set at the front of s; returns it and the text after it. */
  function ParseSet(s: string): (r: Option<(Proj, string)>)
    ensures r.Some? ==> |r.value.1| < |s|
    decreases |s|, 2
  {
    if |s| < 2 || s[..2] != "{ " then None
    else
      var t := s[2..];
      if |t| >= 2 && t[..2] == " }" then Some((Node([]), t[2..]))
      else
        match ParseItems(t)
        case None => None
        case Some((es, w)) => Some((Node(es), w))
  }

  /** Reads one or more comma-separated fields and the closing " }". */
  function ParseItems(t: string): (r: Option<(seq<(string, Proj)>, string)>)
    ensures r.Some? ==> |r.value.1| < |t|
    decreases |t|, 1
  {
    match ParseField(t)
    case None => None
    case Some((k, v, w)) =>
      if |w| >= 1 && w[0] == ',' then
        match ParseItems(w[1..])
        case None => None
        case Some((more, w2)) => Some(([(k, v)] + more, w2))
      else if |w| >= 2 && w[..2] == " }" then Some(([(k, v)], w[2..]))
      else None
  }

  /** Reads a field: a name, then a nested selection set if " {" follows it. */
  function ParseField(t: string): (r: Option<(string, Proj, string)>)
    ensures r.Some? ==> |r.value.2| < |t|
    decreases |t|, 0
  {
    var n := NameLen(t);
    if n == 0 || !NameStart(t[0]) then None
    else
      var k, u := t[..n], t[n..];
      if |u| >= 2 && u[..2] == " {" then
        match ParseSet(u[1..])
        case None => None
        case Some((v, w)) => Some((k, v, w))
      else Some((k, Flag(true), u))
  }

  lemma {:induction false} NameLenOf(k: string, x: string)
    requires forall j :: 0 <= j < |k| ==> NameChar(k[j])
    requires x == [] || !NameChar(x[0])
    ensures NameLen(k + x) == |k|
  {
    if k != [] {
      assert (k + x)[1..] == k[1..] + x;
      NameLenOf(k[1..], x);
    }
  }

  /** Parsing a rendered projection gives back its normal form and leaves what follows untouched. */
  lemma {:induction false} ParseRender(p: Proj, rest: string)
    requires NamesOK(p)
    ensures ParseSet(Render(p) + rest) == Some((Normal(p), rest))
    decreases p, 1, 0
  {
    var s := Render(p) + rest;
    if p.Flag? {
      assert s == "{ " + (" }" + rest);
      assert s[..2] == "{ " && s[2..] == " }" + rest;
      assert s[2..][..2] == " }" && s[2..][2..] == rest;
    } else {
      var es := p.entries;
      var t := Join(",", Emitted(es, 0)) + " }" + rest;
      assert s == "{ " + t;
      assert s[..2] == "{ " && s[2..] == t;
      EmittedLength(es, 0);
      if NormalFrom(es, 0) == [] {
        assert Emitted(es, 0) == [];
        assert Join(",", Emitted(es, 0)) == "";
        assert t == " }" + rest;
        assert t[..2] == " }" && t[2..] == rest;
      } else {
        FirstNameStart(es, 0, rest);
        ParseEntries(es, 0, rest);
      }
    }
  }

  /** The text of non-empty kept entries starts with a name character, so it is not " }". */
  lemma {:induction false} FirstNameStart(es: seq<(string, Proj)>, i: nat, rest: string)
    requires i <= |es| && NamesOK(Node(es))
    requires NormalFrom(es, i) != []
    ensures var t := Join(",", Emitted(es, i)) + " }" + rest; |t| > 0 && NameStart(t[0])
    decreases |es| - i
  {
    EmittedLength(es, i);
    if es[i].1 == Flag(false) {
      FirstNameStart(es, i + 1, rest);
    } else {
      var xs := Emitted(es, i);
      var k := es[i].0;
      assert IsName(k);
      assert xs[0][0] == k[0];
      if |xs| > 1 {
        assert Join(",", xs) == xs[0] + "," + Join(",", xs[1..]);
      }
      assert (Join(",", xs) + " }" + rest)[0] == xs[0][0];
    }
  }

  /** Parsing the joined fields of entries i.. (when some are kept) gives back their normal form. */
  lemma {:induction false} ParseEntries(es: seq<(string, Proj)>, i: nat, rest: string)
    requires i <= |es| && NamesOK(Node(es))
    requires NormalFrom(es, i) != []
    ensures ParseItems(Join(",", Emitted(es, i)) + " }" + rest) == Some((NormalFrom(es, i), rest))
    decreases Node(es), 0, |es| - i, 1
  {
    var k, v := es[i].0, es[i].1;
    if v == Flag(false) {
      assert Emitted(es, i) == Emit(k, v) + Emitted(es, i + 1);
      assert NormalFrom(es, i) == NormalEntry(k, v) + NormalFrom(es, i + 1);
      assert Emit(k, v) == [] && NormalEntry(k, v) == [];
      assert Emitted(es, i) == Emitted(es, i + 1) && NormalFrom(es, i) == NormalFrom(es, i + 1);
      ParseEntries(es, i + 1, rest);
    } else {
      ParseKeptEntry(es, i, rest);
    }
  }

  /** The step of `ParseEntries` for a kept entry: its field, then "," and the rest, or " }". */
  lemma {:induction false} ParseKeptEntry(es: seq<(string, Proj)>, i: nat, rest: string)
    requires i < |es| && NamesOK(Node(es)) && es[i].1 != Flag(false)
    ensures ParseItems(Join(",", Emitted(es, i)) + " }" + rest) == Some((NormalFrom(es, i), rest))
    decreases Node(es), 0, |es| - i, 0
  {
    EmittedLength(es, i + 1);
    var k, v := es[i].0, es[i].1;
    var item := ItemText(k, v);
    var tail := Emitted(es, i + 1);
    EntryStep(es, i);
    if tail == [] {
      assert NormalFrom(es, i) == [(k, ItemNormal(v))];
      assert Join(",", Emitted(es, i)) == item;
      ParseLastItem(k, v, rest);
    } else {
      var more := Join(",", tail) + " }" + rest;
      assert Join(",", Emitted(es, i)) + " }" + rest == item + "," + more by {
        assert ([item] + tail)[1..] == tail;
      }
      ParseNextItem(k, v, more);
      ParseEntries(es, i + 1, rest);
    }
  }

  /** The last field of a set, followed by the closing " }". */
  lemma ParseLastItem(k: string, v: Proj, rest: string)
    requires IsName(k) && v != Flag(false) && NamesOK(v)
    ensures ParseItems(ItemText(k, v) + " }" + rest) == Some(([(k, ItemNormal(v))], rest))
    decreases v, 4
  {
    var x := " }" + rest;
    assert ItemText(k, v) + " }" + rest == ItemText(k, v) + x;
    assert x[0] == ' ' && x[..2] == " }" && x[2..] == rest;
    ParseItem(k, v, x);
  }

  /** A field followed by "," and the fields after it. */
  lemma ParseNextItem(k: string, v: Proj, more: string)
    requires IsName(k) && v != Flag(false) && NamesOK(v)
    ensures ParseItems(ItemText(k, v) + "," + more) ==
      match ParseItems(more)
      case None => None
      case Some((others, w)) => Some(([(k, ItemNormal(v))] + others, w))
    decreases v, 4
  {
    var x := "," + more;
    assert ItemText(k, v) + "," + more == ItemText(k, v) + x;
    assert x[0] == ',' && x[1..] == more;
    ParseItem(k, v, x);
  }

  /** The text a kept entry emits. */
  function ItemText(k: string, v: Proj): string
    decreases v, 1, 1
  {
    if v.Node? then k + " " + Render(v) else k
  }

  /** What a kept entry reads back as. */
  function ItemNormal(v: Proj): Proj
    decreases v, 1, 1
  {
    if v.Node? then Normal(v) else Flag(true)
  }

  /** One field, then either "," and more fields or the closing " }". */
  lemma {:induction false} ParseItem(k: string, v: Proj, x: string)
    requires IsName(k) && v != Flag(false) && NamesOK(v)
    requires (|x| >= 1 && x[0] == ',') || (|x| >= 2 && x[..2] == " }")
    ensures ParseItems(ItemText(k, v) + x) ==
      if x[0] == ',' then
        match ParseItems(x[1..])
        case None => None
        case Some((more, w2)) => Some(([(k, ItemNormal(v))] + more, w2))
      else Some(([(k, ItemNormal(v))], x[2..]))
    decreases v, 3
  {
    ParseFieldText(k, v, x);
  }

  /** A field's text reads back as its name and normal form, leaving what follows. */
  lemma {:induction false} ParseFieldText(k: string, v: Proj, x: string)
    requires IsName(k) && v != Flag(false) && NamesOK(v)
    requires (|x| >= 1 && x[0] == ',') || (|x| >= 2 && x[..2] == " }")
    ensures ParseField(ItemText(k, v) + x) == Some((k, ItemNormal(v), x))
    decreases v, 2
  {
    if v.Node? {
      ParseFieldNode(k, v, x);
    } else {
      assert ItemText(k, v) + x == k + x;
      NameLenOf(k, x);
      ParseFieldBare(k, x);
    }
  }

  /** A nested field: its name, a space, then its rendered selection set. */
  lemma {:induction false} ParseFieldNode(k: string, v: Proj, x: string)
    requires IsName(k) && v.Node? && NamesOK(v)
    requires (|x| >= 1 && x[0] == ',') || (|x| >= 2 && x[..2] == " }")
    ensures ParseField(ItemText(k, v) + x) == Some((k, Normal(v), x))
    decreases v, 1, 1
  {
    var r := Render(v);
    var z := r + x;
    var y := " " + z;
    assert ItemText(k, v) + x == k + y;
    assert r[..2] == "{ ";
    assert z[0] == r[0] == '{';
    NameLenOf(k, y);
    ParseRender(v, x);
    ParseFieldNested(k, y, z);
  }

  lemma ParseFieldBare(k: string, x: string)
    requires IsName(k) && NameLen(k + x) == |k|
    requires (|x| >= 1 && x[0] == ',') || (|x| >= 2 && x[..2] == " }")
    ensures ParseField(k + x) == Some((k, Flag(true), x))
  {
    var t := k + x;
    assert t[0] == k[0];
    assert t[..|k|] == k && t[|k|..] == x;
  }

  lemma ParseFieldNested(k: string, y: string, z: string)
    requires IsName(k) && NameLen(k + y) == |k|
    requires y == " " + z && |z| >= 1 && z[0] == '{'
    ensures ParseField(k + y) == match ParseSet(z)
                                 case None => None
                                 case Some((v, w)) => Some((k, v, w))
  {
    var t := k + y;
    assert t[0] == k[0];
    assert t[..|k|] == k && t[|k|..] == y;
    assert y[..2] == " {" && y[1..] == z;
  }

  /**
   * Two projections whose keys are GraphQL Names render to the same selection set exactly when
   * they agree on every truthy entry, at every depth.
   */
  lemma RenderDeterminesNormal(p: Proj, q: Proj)
    requires NamesOK(p) && NamesOK(q)
    ensures Render(p) == Render(q) <==> Normal(p) == Normal(q)
  {
    ParseRender(p, "");
    ParseRender(q, "");
    assert Render(p) + "" == Render(p) && Render(q) + "" == Render(q);
    RenderNormal(p);
    RenderNormal(q);
  }

  /** The worked example: false keys vanish, nested objects nest, key order is kept. */
  lemma RenderExample()
    ensures Render(Node([("id", Flag(false)), ("email", Flag(true)),
                         ("address", Node([("country", Node([("code", Flag(true))]))]))]))
            == "{ email,address { country { code } } }"
  {
    var code := Node([("code", Flag(true))]);
    var country := Node([("country", code)]);
    RenderSingle("code", Flag(true));
    LiteralCode();
    RenderSingle("country", code);
    LiteralCountry();
    RenderSkipThenTwo("id", "email", "address", country);
    LiteralExample();
  }

  /** A set with one kept field renders as that field's text between the braces. */
  lemma RenderSingle(k: string, v: Proj)
    requires v != Flag(false)
    ensures Render(Node([(k, v)])) == "{ " + ItemText(k, v) + " }"
  {
    var es := [(k, v)];
    assert Emitted(es, 0) == Emit(k, v) + Emitted(es, 1);
    assert Emitted(es, 0) == [ItemText(k, v)];
  }

  /** A false field, a true field, then a nested field: the first is skipped, the others joined. */
  lemma RenderSkipThenTwo(a: string, b: string, c: string, v: Proj)
    requires v.Node?
    ensures Render(Node([(a, Flag(false)), (b, Flag(true)), (c, v)])) == "{ " + (b + "," + (c + " " + Render(v))) + " }"
  {
    var es := [(a, Flag(false)), (b, Flag(true)), (c, v)];
    var item := c + " " + Render(v);
    assert Emitted(es, 2) == [item] + Emitted(es, 3);
    assert Emitted(es, 1) == [b] + Emitted(es, 2);
    assert Emitted(es, 0) == [] + Emitted(es, 1);
    var xs := [b, item];
    assert Emitted(es, 0) == xs;
    assert xs[1..] == [item];
    assert Join(",", xs) == b + "," + item;
  }

  // The three literal equalities below are kept apart from the lemmas about Render, so that the
  // character-by-character comparison they need is not mixed with unfolding Render.

  lemma LiteralCode()
    ensures "{ " + "code" + " }" == "{ code }"
  {
  }

  lemma LiteralCountry()
    ensures "{ " + ("country" + " " + "{ code }") + " }" == "{ country { code } }"
  {
  }

  lemma LiteralExample()
    ensures "{ " + ("email" + "," + ("address" + " " + "{ country { code } }")) + " }"
            == "{ email,address { country { code } } }"
  {
  }
}
