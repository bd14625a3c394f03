/** Bind mounts: type=bind,source=…,target=…[,readonly], read, printed and validated. */
module MountSpec {
  import opened Options
  import opened Text

  datatype Mount = Mount(source: string, target: string, readOnly: bool)

  function ShownFields(m: Mount): seq<string> {
    ["type=bind", "source=" + m.source, "target=" + m.target] + if m.readOnly then ["readonly"] else []
  }

  function Show(m: Mount): string {
    "type=bind,source=" + m.source + ",target=" + m.target + if m.readOnly then ",readonly" else ""
  }

  // ---- fields ----

  function Key(field: string): string { TrimSpace(field[..IndexOf(field, '=')]) }

  predicate HasValue(field: string) { IndexOf(field, '=') < |field| }

  function ValueOf(field: string): string {
    if HasValue(field) then field[IndexOf(field, '=') + 1..] else ""
  }

  /** The field is one of the four, properly written, and agrees with the mount. */
  predicate Agrees(field: string, m: Mount) {
    var key, value := Key(field), ValueOf(field);
    || (key == "type" && value == "bind")
    || (key == "source" && value == m.source != "")
    || (key == "target" && value == m.target != "")
    || (key == "readonly" && !HasValue(field) && m.readOnly)
  }

  predicate HasKey(fields: seq<string>, key: string) { exists i :: 0 <= i < |fields| && Key(fields[i]) == key }

  predicate DistinctKeys(fields: seq<string>) {
    forall i, j :: 0 <= i < j < |fields| ==> Key(fields[i]) != Key(fields[j])
  }

  /** The fields spell out the mount, each key once and none missing. */
  predicate Spells(fields: seq<string>, m: Mount) {
    && DistinctKeys(fields)
    && (forall i :: 0 <= i < |fields| ==> Agrees(fields[i], m))
    && HasKey(fields, "type") && HasKey(fields, "source") && HasKey(fields, "target")
    && (m.readOnly <==> HasKey(fields, "readonly"))
  }

  /** Fields spell out one mount at most. */
  lemma SpellsOne(fields: seq<string>, m: Mount, n: Mount)
    requires Spells(fields, m) && Spells(fields, n)
    ensures m == n
  {
    hide Key, ValueOf, HasValue;
    var i :| 0 <= i < |fields| && Key(fields[i]) == "source";
    var j :| 0 <= j < |fields| && Key(fields[j]) == "target";
    assert Agrees(fields[i], m) && Agrees(fields[i], n) && Agrees(fields[j], m) && Agrees(fields[j], n);
  }

  /** What the fields before `n` have set: the invariant of the reading loop. */
  ghost predicate ReadSoFar(fields: seq<string>, n: nat, m: Mount, seen: set<string>) {
    && n <= |fields| && DistinctKeys(fields[..n])
    && (forall i :: 0 <= i < n ==> Key(fields[i]) in seen && Agrees(fields[i], m))
    && (forall key :: key in seen ==> HasKey(fields[..n], key))
    && (m.source != "" ==> "source" in seen) && (m.target != "" ==> "target" in seen)
    && (m.readOnly ==> "readonly" in seen)
  }

  lemma ReadOne(fields: seq<string>, n: nat, m: Mount, seen: set<string>, next: Mount)
    requires n < |fields| && ReadSoFar(fields, n, m, seen) && Key(fields[n]) !in seen && Agrees(fields[n], next)
    requires next.source == m.source || Key(fields[n]) == "source"
    requires next.target == m.target || Key(fields[n]) == "target"
    requires next.readOnly == m.readOnly || Key(fields[n]) == "readonly"
    ensures ReadSoFar(fields, n + 1, next, seen + {Key(fields[n])})
  {
    hide Key, ValueOf, HasValue;
    var more := fields[..n + 1];
    forall i, j | 0 <= i < j < |more| ensures Key(more[i]) != Key(more[j]) {
      if j < n {
        assert fields[..n][i] == fields[i] && fields[..n][j] == fields[j];
      }
    }
    forall key | key in seen + {Key(fields[n])} ensures HasKey(more, key) {
      if key in seen {
        var i :| 0 <= i < n && Key(fields[..n][i]) == key;
        assert Key(more[i]) == key;
      } else {
        assert Key(more[n]) == key;
      }
    }
  }

  lemma NoValue(field: string)
    ensures !HasValue(field) ==> ValueOf(field) == ""
  {
  }

  lemma Repeated(fields: seq<string>, n: nat, m: Mount, seen: set<string>)
    requires n < |fields| && ReadSoFar(fields, n, m, seen) && Key(fields[n]) in seen
    ensures forall any :: !Spells(fields, any)
  {
    hide Key;
    var i :| 0 <= i < n && Key(fields[..n][i]) == Key(fields[n]);
    assert !DistinctKeys(fields);
  }

  lemma Finished(fields: seq<string>, m: Mount, seen: set<string>)
    requires ReadSoFar(fields, |fields|, m, seen)
    ensures if "type" in seen && m.source != "" && m.target != "" then Spells(fields, m)
            else forall any :: !Spells(fields, any)
  {
    hide Key, ValueOf, HasValue;
    assert fields[..|fields|] == fields;
    if "type" in seen && m.source != "" && m.target != "" {
      if HasKey(fields, "readonly") {
        var i :| 0 <= i < |fields| && Key(fields[i]) == "readonly";
        assert Agrees(fields[i], m);
      }
    } else if "type" in seen {
      var missing := if m.source == "" then "source" else "target";
      assert !HasKey(fields, missing);
    } else {
      assert !HasKey(fields, "type");
    }
  }

  /** A mount is returned exactly when the fields spell one out, and it is that one. */
  method ParseMount(value: string) returns (r: Option<Mount>)
    ensures r.Some? ==> Spells(Split(value, ','), r.value)
    ensures r.None? ==> forall m :: !Spells(Split(value, ','), m)
  {
    hide Key, ValueOf, HasValue, Split;
    var mount := Mount("", "", false);
    var seen: set<string> := {};
    var fields := Split(value, ',');
    for i := 0 to |fields|
      invariant ReadSoFar(fields, i, mount, seen)
    {
      var field := fields[i];
      var key, val, hasValue := Key(field), ValueOf(field), HasValue(field);
      ghost var before, was := mount, seen;
      if key in seen {
        Repeated(fields, i, mount, seen);
        return None;
      }
      NoValue(field);
      seen := seen + {key};
      if key == "type" {
        if !hasValue || val != "bind" {
          return None;
        }
      } else if key == "source" {
        if !hasValue || val == "" {
          return None;
        }
        mount := mount.(source := val);
      } else if key == "target" {
        if !hasValue || val == "" {
          return None;
        }
        mount := mount.(target := val);
      } else if key == "readonly" {
        if hasValue {
          return None;
        }
        mount := mount.(readOnly := true);
      } else {
        return None;
      }
      ReadOne(fields, i, before, was, mount);
    }
    Finished(fields, mount, seen);
    if "type" !in seen || mount.source == "" || mount.target == "" {
      return None;
    }
    return Some(mount);
  }

  // ---- printing and reading back ----

  predicate Printable(m: Mount) { m.source != "" && m.target != "" && ',' !in m.source && ',' !in m.target }

  lemma Field(key: string, value: string)
    requires '=' !in key && Trimmed(key)
    ensures Key(key + "=" + value) == key && HasValue(key + "=" + value) && ValueOf(key + "=" + value) == value
  {
    var field := key + "=" + value;
    IndexOfAppend(key, '=', value);
    assert field[..|key|] == key && field[|key| + 1..] == value;
    TrimmedFixed(key);
  }

  lemma Bare(key: string)
    requires '=' !in key && Trimmed(key)
    ensures Key(key) == key && !HasValue(key)
  {
    IndexOfAbsent(key, '=');
    TrimmedFixed(key);
    assert key[..|key|] == key;
  }

  lemma ShownIsJoined(m: Mount)
    ensures Show(m) == Join(ShownFields(m), ",")
  {
    var kind, s, t := "type=bind", "source=" + m.source, "target=" + m.target;
    if m.readOnly {
      var r := "readonly";
      assert [kind, s, t, r][1..] == [s, t, r] && [s, t, r][1..] == [t, r] && [t, r][1..] == [r];
      assert ShownFields(m) == [kind, s, t, r];
      calc {
        Join([kind, s, t, r], ",");
        kind + "," + Join([s, t, r], ",");
        kind + "," + (s + "," + Join([t, r], ","));
        kind + "," + (s + "," + (t + "," + r));
        Show(m);
      }
    } else {
      assert [kind, s, t][1..] == [s, t] && [s, t][1..] == [t];
      assert ShownFields(m) == [kind, s, t];
      calc {
        Join([kind, s, t], ",");
        kind + "," + Join([s, t], ",");
        kind + "," + (s + "," + t);
        Show(m);
      }
    }
  }

  lemma ShownSpells(m: Mount)
    requires m.source != "" && m.target != ""
    ensures Spells(ShownFields(m), m)
  {
    hide Key, HasValue, ValueOf;
    var fields := ShownFields(m);
    Field("type", "bind");
    assert "type" + "=" + "bind" == "type=bind";
    Field("source", m.source);
    assert "source" + "=" + m.source == "source=" + m.source;
    Field("target", m.target);
    assert "target" + "=" + m.target == "target=" + m.target;
    Bare("readonly");
    assert Key(fields[0]) == "type" && Key(fields[1]) == "source" && Key(fields[2]) == "target";
    if m.readOnly {
      assert fields[3] == "readonly";
    }
  }

  lemma SpeltFieldsPlain(value: string, m: Mount)
    requires Spells(Split(value, ','), m)
    ensures Printable(m)
  {
    hide Key, ValueOf, HasValue, Split;
    var fields := Split(value, ',');
    SplitPartsFree(value, ',');
    var i :| 0 <= i < |fields| && Key(fields[i]) == "source";
    var j :| 0 <= j < |fields| && Key(fields[j]) == "target";
    assert Agrees(fields[i], m) && Agrees(fields[j], m);
    ValueFree(fields[i], ',');
    ValueFree(fields[j], ',');
  }

  lemma ValueFree(field: string, c: char)
    requires c !in field
    ensures c !in ValueOf(field)
  {
  }

  /** The printed form reads back as the mount exactly when both paths are non-empty and free of commas. */
  lemma ShowReadsExactly(m: Mount)
    ensures Spells(Split(Show(m), ','), m) <==> Printable(m)
  {
    hide Spells, Split, Join;
    if Printable(m) {
      ShownIsJoined(m);
      ShownSpells(m);
      var fields := ShownFields(m);
      forall i | 0 <= i < |fields| ensures ',' !in fields[i] { ShownFree(m, i); }
      SplitJoin(fields, ',');
    }
    if Spells(Split(Show(m), ','), m) {
      SpeltFieldsPlain(Show(m), m);
    }
  }

  lemma ShownFree(m: Mount, i: nat)
    requires Printable(m) && i < |ShownFields(m)|
    ensures ',' !in ShownFields(m)[i]
  {
  }

  // ---- validation ----

  predicate OneLine(s: string) { '\r' !in s && '\n' !in s }

  predicate IsAbs(s: string) { s != "" && s[0] == '/' }

  /** What a single mount must satisfy; `isDir` says which paths are accessible directories. */
  predicate Usable(m: Mount, isDir: string -> bool) {
    && OneLine(m.source) && OneLine(m.target) && IsAbs(m.source) && ',' !in m.source && ',' !in m.target
    && isDir(m.source) && IsAbs(m.target)
  }

  predicate AllUsable(mounts: seq<Mount>, isDir: string -> bool) {
    forall i :: 0 <= i < |mounts| ==> Usable(mounts[i], isDir)
  }

  predicate DistinctTargets(mounts: seq<Mount>, clean: string -> string) {
    forall i, j :: 0 <= i < j < |mounts| ==> clean(mounts[i].target) != clean(mounts[j].target)
  }

  /** Accepted mounts all survive print then parse; `clean` is path.Clean. */
  method ValidateMounts(mounts: seq<Mount>, isDir: string -> bool, clean: string -> string) returns (ok: bool)
    ensures ok <==> AllUsable(mounts, isDir) && DistinctTargets(mounts, clean)
    ensures ok ==> forall i :: 0 <= i < |mounts| ==> Spells(Split(Show(mounts[i]), ','), mounts[i])
  {
    hide Spells, Split, Show;
    var targets: map<string, nat> := map[];
    for i := 0 to |mounts|
      invariant forall k :: 0 <= k < i ==> Usable(mounts[k], isDir) && clean(mounts[k].target) in targets
      invariant forall t :: t in targets ==> targets[t] < i && clean(mounts[targets[t]].target) == t
      invariant forall k, j :: 0 <= k < j < i ==> clean(mounts[k].target) != clean(mounts[j].target)
    {
      if !Usable(mounts[i], isDir) {
        return false;
      }
      var target := clean(mounts[i].target);
      if target in targets {
        return false;
      }
      targets := targets[target := i];
    }
    ok := true;
    forall i | 0 <= i < |mounts| ensures Spells(Split(Show(mounts[i]), ','), mounts[i]) {
      assert Usable(mounts[i], isDir);
      ShowReadsExactly(mounts[i]);
    }
  }
}
