/**
 JSON Pointer (RFC 6901) and the add and remove operations of JSON Patch (RFC 6902), as the
 Kubernetes API server applies them to an admitted object.
 */
module JsonPatch {
  import opened Options
  import opened Text

  datatype Json =
    | Null
    | Num(n: int)
    | Str(s: string)
    | Arr(items: seq<Json>)
    | Obj(fields: map<string, Json>)

  // ---- pointers ----

  /** jsonPointerToken: "~" first, then "/". */
  function Escape(token: string): string { Replace(Replace(token, '~', "~0"), '/', "~1") }

  /** Section 3 of RFC 6901: "~" must be followed by 0 or 1. */
  function Unescape(s: string): Option<string> {
    if s == [] then Some("")
    else if s[0] != '~' then
      var rest := Unescape(s[1..]);
      if rest.None? then None else Some([s[0]] + rest.value)
    else if |s| > 1 && (s[1] == '0' || s[1] == '1') then
      var rest := Unescape(s[2..]);
      if rest.None? then None else Some([if s[1] == '0' then '~' else '/'] + rest.value)
    else None
  }

  lemma {:induction false} EscapeStep(c: char, rest: string)
    ensures Escape([c] + rest) == (if c == '~' then "~0" else if c == '/' then "~1" else [c]) + Escape(rest)
  {
    var tail := Replace(rest, '~', "~0");
    assert ([c] + rest)[1..] == rest;
    if c == '~' {
      assert Replace([c] + rest, '~', "~0") == "~0" + tail;
      assert ("~0" + tail)[1..] == "0" + tail && ("0" + tail)[1..] == tail;
      assert Replace("0" + tail, '/', "~1") == "0" + Replace(tail, '/', "~1");
      assert Replace("~0" + tail, '/', "~1") == "~" + Replace("0" + tail, '/', "~1");
    } else {
      assert Replace([c] + rest, '~', "~0") == [c] + tail;
      assert ([c] + tail)[1..] == tail;
    }
  }

  /** Escaping is invertible and leaves no separator behind. */
  lemma {:induction false} EscapeRoundTrip(token: string)
    ensures Unescape(Escape(token)) == Some(token)
    ensures '/' !in Escape(token)
  {
    if token != [] {
      EscapeRoundTrip(token[1..]);
      EscapeStep(token[0], token[1..]);
      assert token == [token[0]] + token[1..];
      var head := if token[0] == '~' then "~0" else if token[0] == '/' then "~1" else [token[0]];
      var tail := Escape(token[1..]);
      if |head| == 2 {
        assert (head + tail)[2..] == tail;
      } else {
        assert (head + tail)[1..] == tail;
      }
    }
  }

  predicate Plain(s: string) { '~' !in s && '/' !in s }

  lemma EscapePlain(s: string)
    requires Plain(s)
    ensures Escape(s) == s
  {
    ReplaceAbsent(s, '~', "~0");
    ReplaceAbsent(s, '/', "~1");
  }

  function UnescapeAll(parts: seq<string>): Option<seq<string>> {
    if parts == [] then Some([])
    else
      var init, last := UnescapeAll(parts[..|parts| - 1]), Unescape(parts[|parts| - 1]);
      if init.None? || last.None? then None else Some(init.value + [last.value])
  }

  /** The reference tokens of a pointer. */
  function Parse(pointer: string): Option<seq<string>> {
    if pointer == "" then Some([])
    else if pointer[0] != '/' then None
    else UnescapeAll(Split(pointer[1..], '/'))
  }

  lemma {:induction false} SplitSnoc(s: string, c: char, part: string)
    requires c !in part
    ensures Split(s + [c] + part, c) == Split(s, c) + [part]
    decreases |s|
  {
    var i := IndexOf(s, c);
    if i == |s| {
      SplitCons(s, c, part);
      IndexOfAbsent(part, c);
    } else {
      var rest := s[i + 1..];
      assert s + [c] + part == s[..i] + [c] + (rest + [c] + part);
      SplitCons(s[..i], c, rest + [c] + part);
      SplitSnoc(rest, c, part);
    }
  }

  /** Appending an escaped token to a pointer appends that token to its parse. */
  lemma ParseSnoc(pointer: string, token: string)
    requires Parse(pointer).Some?
    ensures Parse(pointer + "/" + Escape(token)) == Some(Parse(pointer).value + [token])
  {
    EscapeRoundTrip(token);
    var longer := pointer + "/" + Escape(token);
    if pointer == "" {
      assert longer[1..] == Escape(token);
      IndexOfAbsent(Escape(token), '/');
      assert Split(longer[1..], '/') == [Escape(token)];
      assert UnescapeAll([Escape(token)][..0]) == Some([]);
    } else {
      assert longer[1..] == pointer[1..] + ['/'] + Escape(token);
      SplitSnoc(pointer[1..], '/', Escape(token));
      var parts := Split(pointer[1..], '/');
      assert (parts + [Escape(token)])[..|parts|] == parts;
    }
  }

  // ---- documents ----

  function ArrayIndex(token: string): Option<nat> {
    if Canonical(token) then Some(DecimalValue(token)) else None
  }

  function Child(doc: Json, token: string): Option<Json> {
    match doc
    case Obj(fields) => if token in fields then Some(fields[token]) else None
    case Arr(items) =>
      var i := ArrayIndex(token);
      if i.Some? && i.value < |items| then Some(items[i.value]) else None
    case _ => None
  }

  function WithChild(doc: Json, token: string, child: Json): Json
    requires Child(doc, token).Some?
  {
    match doc
    case Obj(fields) => Obj(fields[token := child])
    case Arr(items) => Arr(items[ArrayIndex(token).value := child])
  }

  function Get(doc: Json, path: seq<string>): Option<Json> {
    if path == [] then Some(doc)
    else
      var child := Child(doc, path[0]);
      if child.None? then None else Get(child.value, path[1..])
  }

  function Set(doc: Json, path: seq<string>, value: Json): Json
    requires Get(doc, path).Some?
  {
    if path == [] then value
    else WithChild(doc, path[0], Set(Child(doc, path[0]).value, path[1..], value))
  }

  /** Section 4.1 of RFC 6902. */
  function Add(doc: Json, path: seq<string>, value: Json): Option<Json> {
    if path == [] then Some(value)
    else if |path| == 1 then
      match doc
      case Obj(fields) => Some(Obj(fields[path[0] := value]))
      case Arr(items) =>
        var i := ArrayIndex(path[0]);
        if path[0] == "-" then Some(Arr(items + [value]))
        else if i.Some? && i.value <= |items| then Some(Arr(items[..i.value] + [value] + items[i.value..]))
        else None
      case _ => None
    else
      var child := Child(doc, path[0]);
      var inner := if child.None? then None else Add(child.value, path[1..], value);
      if inner.None? then None else Some(WithChild(doc, path[0], inner.value))
  }

  /** Section 4.2 of RFC 6902: the target must exist. */
  function Remove(doc: Json, path: seq<string>): Option<Json> {
    if path == [] then None
    else if |path| == 1 then
      match doc
      case Obj(fields) => if path[0] in fields then Some(Obj(fields - {path[0]})) else None
      case Arr(items) =>
        var i := ArrayIndex(path[0]);
        if i.Some? && i.value < |items| then Some(Arr(items[..i.value] + items[i.value + 1..])) else None
      case _ => None
    else
      var child := Child(doc, path[0]);
      var inner := if child.None? then None else Remove(child.value, path[1..]);
      if inner.None? then None else Some(WithChild(doc, path[0], inner.value))
  }

  datatype Operation = AddOp(path: string, value: Json) | RemoveOp(path: string)

  function Apply(doc: Json, op: Operation): Option<Json> {
    var path := Parse(op.path);
    if path.None? then None
    else match op
      case AddOp(_, value) => Add(doc, path.value, value)
      case RemoveOp(_) => Remove(doc, path.value)
  }

  /** Operations apply in order and the whole patch fails as soon as one does. */
  function ApplyAll(doc: Json, ops: seq<Operation>): Option<Json>
    decreases |ops|
  {
    if ops == [] then Some(doc)
    else
      var next := Apply(doc, ops[0]);
      if next.None? then None else ApplyAll(next.value, ops[1..])
  }

  lemma {:induction false} ApplyAllConcat(doc: Json, a: seq<Operation>, b: seq<Operation>)
    ensures ApplyAll(doc, a + b) ==
            if ApplyAll(doc, a).None? then None else ApplyAll(ApplyAll(doc, a).value, b)
    decreases |a|
  {
    if a == [] {
      assert a + b == b;
    } else {
      assert (a + b)[1..] == a[1..] + b;
      var next := Apply(doc, a[0]);
      if next.Some? {
        ApplyAllConcat(next.value, a[1..], b);
      }
    }
  }

  // ---- operations below a common parent ----

  lemma {:induction false} AddBelow(doc: Json, parent: seq<string>, path: seq<string>, value: Json)
    requires Get(doc, parent).Some? && path != []
    ensures var inner := Add(Get(doc, parent).value, path, value);
            Add(doc, parent + path, value) == if inner.None? then None else Some(Set(doc, parent, inner.value))
  {
    if parent == [] {
      assert parent + path == path;
    } else {
      assert (parent + path)[1..] == parent[1..] + path;
      AddBelow(Child(doc, parent[0]).value, parent[1..], path, value);
    }
  }

  lemma {:induction false} RemoveBelow(doc: Json, parent: seq<string>, path: seq<string>)
    requires Get(doc, parent).Some? && path != []
    ensures var inner := Remove(Get(doc, parent).value, path);
            Remove(doc, parent + path) == if inner.None? then None else Some(Set(doc, parent, inner.value))
  {
    if parent == [] {
      assert parent + path == path;
    } else {
      assert (parent + path)[1..] == parent[1..] + path;
      RemoveBelow(Child(doc, parent[0]).value, parent[1..], path);
    }
  }

  lemma {:induction false} GetSet(doc: Json, path: seq<string>, value: Json)
    requires Get(doc, path).Some?
    ensures Get(Set(doc, path, value), path) == Some(value)
  {
    if path != [] {
      GetSet(Child(doc, path[0]).value, path[1..], value);
    }
  }

  lemma {:induction false} SetSet(doc: Json, path: seq<string>, first: Json, second: Json)
    requires Get(doc, path).Some?
    ensures Get(Set(doc, path, first), path).Some?
    ensures Set(Set(doc, path, first), path, second) == Set(doc, path, second)
  {
    if path != [] {
      SetSet(Child(doc, path[0]).value, path[1..], first, second);
    }
  }

  lemma {:induction false} GetConcat(doc: Json, a: seq<string>, b: seq<string>)
    requires Get(doc, a).Some?
    ensures Get(doc, a + b) == Get(Get(doc, a).value, b)
  {
    if a == [] {
      assert a + b == b;
    } else {
      assert (a + b)[1..] == a[1..] + b;
      GetConcat(Child(doc, a[0]).value, a[1..], b);
    }
  }

  lemma {:induction false} SetConcat(doc: Json, a: seq<string>, b: seq<string>, value: Json)
    requires Get(doc, a).Some? && Get(Get(doc, a).value, b).Some?
    ensures Get(doc, a + b).Some?
    ensures Set(doc, a + b, value) == Set(doc, a, Set(Get(doc, a).value, b, value))
  {
    GetConcat(doc, a, b);
    if a == [] {
      assert a + b == b;
    } else {
      assert (a + b)[1..] == a[1..] + b;
      SetConcat(Child(doc, a[0]).value, a[1..], b, value);
    }
  }
}
