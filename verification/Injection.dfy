/** Header injection into JSON messages (agent/websockets/connection.go). JSON is a tree here; the text
    on either side of it, and what decoding does to large numbers, are not part of the model. */
module Injection {
  import opened Basics

  datatype Json =
    | JNull
    | JBool(b: bool)
    | JNumber(literal: string)
    | JString(s: string)
    | JArray(items: seq<Json>)
    | JObject(fields: map<string, Json>)

  type Path = seq<string>

  /** The value at a path of object keys. */
  function At(j: Json, path: Path): Option<Json>
  {
    if path == [] then Some(j)
    else if j.JObject? && path[0] in j.fields then At(j.fields[path[0]], path[1..])
    else None
  }

  predicate LeadsToObject(j: Json, path: Path) { At(j, path).Some? && At(j, path).value.JObject? }

  /** The last loop of `injectWebsocketMessage`, over the values in any order. */
  method AddMissing(fields: map<string, Json>, values: map<string, string>) returns (r: map<string, Json>)
    ensures r == WithMissing(fields, values)
  {
    r := fields;
    var keys := values.Keys;
    while keys != {}
      invariant keys <= values.Keys
      invariant forall k :: k in fields ==> k in r && r[k] == fields[k]
      invariant forall k :: k in r && k !in fields ==> k in values && k !in keys && r[k] == JString(values[k])
      invariant forall k :: k in values && k !in keys ==> k in r
    {
      var k :| k in keys;
      if k !in r {
        r := r[k := JString(values[k])];
      }
      keys := keys - {k};
    }
  }

  function WithMissing(fields: map<string, Json>, values: map<string, string>): map<string, Json> {
    (map k | k in values :: JString(values[k])) + fields
  }

  /** The tree after the loops of `injectWebsocketMessage`; `None` if the path does not lead to an
      object. */
  function Inject(j: Json, path: Path, values: map<string, string>): Option<Json>
    decreases |path|
  {
    if !j.JObject? then None
    else if path == [] then Some(JObject(WithMissing(j.fields, values)))
    else if path[0] !in j.fields then None
    else match Inject(j.fields[path[0]], path[1..], values)
      case Some(inner) => Some(JObject(j.fields[path[0] := inner]))
      case None => None
  }

  /** Injection succeeds exactly if the path leads to an object. */
  lemma {:induction false} InjectSucceedsExactlyOnObjects(j: Json, path: Path, values: map<string, string>)
    ensures Inject(j, path, values).Some? <==> LeadsToObject(j, path)
    decreases |path|
  {
    if path != [] && j.JObject? && path[0] in j.fields {
      InjectSucceedsExactlyOnObjects(j.fields[path[0]], path[1..], values);
    }
  }

  /** Every path that had a value still has one, the same unless it is an object, which stays one. */
  lemma {:induction false} InjectOverwritesNothing(j: Json, path: Path, values: map<string, string>, q: Path)
    requires Inject(j, path, values).Some? && At(j, q).Some?
    ensures
      var r := Inject(j, path, values).value;
      && At(r, q).Some?
      && (At(j, q).value.JObject? <==> At(r, q).value.JObject?)
      && (!At(j, q).value.JObject? ==> At(r, q) == At(j, q))
    decreases |path|
  {
    if q != [] && path != [] && q[0] == path[0] {
      InjectOverwritesNothing(j.fields[path[0]], path[1..], values, q[1..]);
    }
  }

  /** Exactly the keys that were missing at the path are added, with their values. */
  lemma {:induction false} InjectAddsExactlyMissing(j: Json, path: Path, values: map<string, string>, q: Path)
    requires Inject(j, path, values).Some? && At(j, q) == None
    ensures
      var r := Inject(j, path, values).value;
      && (At(r, q).Some? <==> |q| == |path| + 1 && q[..|path|] == path && q[|path|] in values)
      && (At(r, q).Some? ==> At(r, q) == Some(JString(values[q[|path|]])))
    decreases |path|
  {
    var r := Inject(j, path, values).value;
    assert q != [];
    if path == [] {
      if q[0] !in j.fields && q[0] in values {
        assert r.fields[q[0]] == JString(values[q[0]]);
        assert |q| > 1 ==> At(r.fields[q[0]], q[1..]) == None;
      }
    } else if q[0] == path[0] {
      InjectAddsExactlyMissing(j.fields[path[0]], path[1..], values, q[1..]);
      assert q == [q[0]] + q[1..];
      assert |q| == |path| + 1 ==> (q[..|path|] == path <==> q[1..][..|path| - 1] == path[1..]) by {
        if |q| == |path| + 1 {
          assert q[..|path|] == [q[0]] + q[1..][..|path| - 1];
          assert path == [path[0]] + path[1..];
        }
      }
    } else {
      assert |q| >= |path| ==> q[..|path|][0] == q[0];
    }
  }

  /** A second injection of the same values changes nothing. */
  lemma {:induction false} InjectIsIdempotent(j: Json, path: Path, values: map<string, string>)
    requires Inject(j, path, values).Some?
    ensures Inject(Inject(j, path, values).value, path, values) == Inject(j, path, values)
    decreases |path|
  {
    var r := Inject(j, path, values).value;
    if path == [] {
      assert WithMissing(r.fields, values) == r.fields;
    } else {
      var inner := Inject(j.fields[path[0]], path[1..], values).value;
      InjectIsIdempotent(j.fields[path[0]], path[1..], values);
      assert r.fields[path[0] := inner] == r.fields;
    }
  }

  // ---------------------------------------------------------------- messages

  datatype Message = Message(kind: int, data: Bytes)

  const INJECTED_HEADERS_PATH: Path := ["resource", "headers"]

  /** `injectWebsocketMessage`. `parse` is JSON decoding into an object, where the text "null" gives the
      absent object `JNull`; `render` is encoding. */
  function InjectMessage(m: Message, path: Path, values: map<string, string>,
                         parse: Bytes -> Option<Json>, render: Json -> Bytes): Option<Message>
  {
    if values == map[] then Some(m)
    else match parse(m.data)
      case None => None
      case Some(j) =>
        match Inject(j, path, values)
        case Some(r) => Some(m.(data := render(r)))
        case None => None
  }

  /** The tree after the fields of the object at `path` became `fields`. */
  function WithFieldsAt(j: Json, path: Path, fields: map<string, Json>): Json
    requires LeadsToObject(j, path)
  {
    if path == [] then JObject(fields)
    else JObject(j.fields[path[0] := WithFieldsAt(j.fields[path[0]], path[1..], fields)])
  }

  lemma {:induction false} AtSnoc(j: Json, path: Path, k: string)
    ensures At(j, path + [k]) == match At(j, path)
      case Some(inner) => (if inner.JObject? && k in inner.fields then Some(inner.fields[k]) else None)
      case None => None
    decreases |path|
  {
    if path == [] {
      assert path + [k] == [k] && [k][1..] == [];
    } else {
      assert (path + [k])[1..] == path[1..] + [k];
      if j.JObject? && path[0] in j.fields {
        AtSnoc(j.fields[path[0]], path[1..], k);
      }
    }
  }

  lemma {:induction false} AtPrefix(j: Json, path: Path, i: nat)
    requires i <= |path| && At(j, path[..i]) == None
    ensures At(j, path) == None
    decreases |path|
  {
    if i > 0 && j.JObject? && path[0] in j.fields {
      assert path[..i][1..] == path[1..][..i - 1];
      AtPrefix(j.fields[path[0]], path[1..], i - 1);
    }
  }

  lemma {:induction false} InjectIsChangeAt(j: Json, path: Path, values: map<string, string>)
    requires LeadsToObject(j, path)
    ensures Inject(j, path, values) == Some(WithFieldsAt(j, path, WithMissing(At(j, path).value.fields, values)))
    decreases |path|
  {
    if path != [] {
      InjectIsChangeAt(j.fields[path[0]], path[1..], values);
    }
  }

  /** `injectWebsocketMessage` with its two loops: down the path, and over the values. The assignment to
      the innermost map, which the outer maps share, is `WithFieldsAt`. */
  method InjectWebsocketMessage(m: Message, path: Path, values: map<string, string>,
                                parse: Bytes -> Option<Json>, render: Json -> Bytes) returns (r: Option<Message>)
    ensures r == InjectMessage(m, path, values, parse, render)
  {
    if |values| == 0 {
      return Some(m);
    }
    var parsed := parse(m.data);
    if parsed == None {
      return None;
    }
    var j := parsed.value;
    InjectSucceedsExactlyOnObjects(j, path, values);
    var curr := j;
    for i := 0 to |path|
      invariant At(j, path[..i]) == Some(curr) && (i > 0 ==> curr.JObject?)
    {
      AtSnoc(j, path[..i], path[i]);
      assert path[..i + 1] == path[..i] + [path[i]];
      if !curr.JObject? || path[i] !in curr.fields || !curr.fields[path[i]].JObject? {
        NotThere(j, path, i + 1);
        return None;
      }
      curr := curr.fields[path[i]];
    }
    assert path[..|path|] == path;
    if !curr.JObject? {
      return None;
    }
    var fields := AddMissing(curr.fields, values);
    InjectIsChangeAt(j, path, values);
    r := Some(m.(data := render(WithFieldsAt(j, path, fields))));
  }

  /** A path cannot lead to an object through something that is none. */
  lemma NotThere(j: Json, path: Path, i: nat)
    requires 0 < i <= |path| && !LeadsToObject(j, path[..i])
    ensures !LeadsToObject(j, path)
  {
    if i < |path| {
      AtSnoc(j, path[..i], path[i]);
      assert path[..i + 1] == path[..i] + [path[i]];
      AtPrefix(j, path, i + 1);
    } else {
      assert path[..i] == path;
    }
  }

  /** What `SendClientMessage` sends when injection is on: the original if injection fails. */
  function Outgoing(m: Message, values: map<string, string>, parse: Bytes -> Option<Json>,
                    render: Json -> Bytes): (r: Message)
    ensures r.kind == m.kind
  {
    match InjectMessage(m, INJECTED_HEADERS_PATH, values, parse, render)
    case Some(r) => r
    case None => m
  }

  /** The message sent is either the original, or its tree with the headers that were missing at
      `resource.headers`, and only when there is such an object; sending it through again changes
      nothing, if decoding reads back what encoding wrote. */
  lemma OutgoingIsOriginalOrInjected(m: Message, values: map<string, string>, parse: Bytes -> Option<Json>,
                                     render: Json -> Bytes)
    requires forall j: Json :: j.JObject? ==> parse(render(j)) == Some(j)
    ensures
      var r := Outgoing(m, values, parse, render);
      && ((values == map[] || parse(m.data) == None || !LeadsToObject(parse(m.data).value, ["resource", "headers"])) ==>
            r == m)
      && ((values != map[] && parse(m.data).Some? && LeadsToObject(parse(m.data).value, ["resource", "headers"])) ==>
            parse(r.data) == Inject(parse(m.data).value, ["resource", "headers"], values))
      && Outgoing(r, values, parse, render) == r
  {
    if values != map[] && parse(m.data).Some? {
      var j := parse(m.data).value;
      InjectSucceedsExactlyOnObjects(j, INJECTED_HEADERS_PATH, values);
      if LeadsToObject(j, INJECTED_HEADERS_PATH) {
        InjectIsIdempotent(j, INJECTED_HEADERS_PATH, values);
      }
    }
  }
}
