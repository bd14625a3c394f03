/**
 Command lines for a POSIX shell: quoting on the one side, and on the other the field splitting of
 sections 2.2.1 to 2.2.3 of the POSIX Shell Command Language, as far as such lines use it.
 */
module ShellQuote {
  import opened Options
  import opened Text

  // ---- quoting ----

  /** strings.ReplaceAll of a single quote by the four characters that close, escape and reopen. */
  function Escape(s: string): string { Replace(s, '\'', "'\\''") }

  function Quote(s: string): string { "'" + Escape(s) + "'" }

  function Quoted(args: seq<string>): seq<string> { seq(|args|, i requires 0 <= i < |args| => Quote(args[i])) }

  method ShellJoin(args: seq<string>) returns (line: string)
    ensures line == Join(Quoted(args), " ")
    ensures Words(line, Plain, None, NO_VARIABLES) == Some(args)
  {
    var quoted: seq<string> := [];
    for i := 0 to |args|
      invariant |quoted| == i && forall k :: 0 <= k < i ==> quoted[k] == Quote(args[k])
    {
      quoted := quoted + [Quote(args[i])];
    }
    assert quoted == Quoted(args);
    JoinedFields(args, NO_VARIABLES);
    return Join(quoted, " ");
  }

  // ---- the shell's reading ----

  datatype Mode = Plain | Single | Double

  const NO_VARIABLES: string -> string := name => ""

  predicate IsNameChar(c: char) { 'a' <= c <= 'z' || 'A' <= c <= 'Z' || '0' <= c <= '9' || c == '_' }

  /** Characters that stand for themselves outside quotes. */
  predicate IsPlain(c: char) { IsNameChar(c) || c in "-=./,:" }

  predicate IsBlank(c: char) { c == ' ' || c == '\t' }

  function NameEnd(s: string): (n: nat)
    ensures n <= |s| && (n < |s| ==> !IsNameChar(s[n])) && forall k :: 0 <= k < n ==> IsNameChar(s[k])
  {
    if s == [] || !IsNameChar(s[0]) then 0 else 1 + NameEnd(s[1..])
  }

  function Open(word: Option<string>): string { if word.Some? then word.value else "" }

  /**
   The fields of a line from some point on, `word` being the field under way. None for an unterminated
   quote or anything that is more than a simple command's words.
   */
  function Words(s: string, mode: Mode, word: Option<string>, vars: string -> string): Option<seq<string>>
    decreases |s|
  {
    match mode
    case Plain =>
      if s == [] then Some(if word.Some? then [word.value] else [])
      else if IsBlank(s[0]) then
        var rest := Words(s[1..], Plain, None, vars);
        if rest.Some? && word.Some? then Some([word.value] + rest.value) else rest
      else if s[0] == '\'' then Words(s[1..], Single, Some(Open(word)), vars)
      else if s[0] == '"' then Words(s[1..], Double, Some(Open(word)), vars)
      else if s[0] == '\\' then
        if |s| < 2 then None
        else if s[1] == '\n' then Words(s[2..], Plain, word, vars)
        else Words(s[2..], Plain, Some(Open(word) + [s[1]]), vars)
      else if IsPlain(s[0]) then Words(s[1..], Plain, Some(Open(word) + [s[0]]), vars)
      else None
    case Single =>
      if s == [] then None
      else if s[0] == '\'' then Words(s[1..], Plain, word, vars)
      else Words(s[1..], Single, Some(Open(word) + [s[0]]), vars)
    case Double =>
      if s == [] then None
      else if s[0] == '"' then Words(s[1..], Plain, word, vars)
      else if s[0] == '$' then
        var n := NameEnd(s[1..]);
        if n == 0 then None else Words(s[1 + n..], Double, Some(Open(word) + vars(s[1..1 + n])), vars)
      else if s[0] == '`' then None
      else if s[0] == '\\' then
        if |s| < 2 then None
        else if s[1] == '\n' then Words(s[2..], Double, word, vars)
        else if s[1] in "$`\"\\" then Words(s[2..], Double, Some(Open(word) + [s[1]]), vars)
        else Words(s[1..][1..], Double, Some(Open(word) + [s[0], s[1]]), vars)
      else Words(s[1..], Double, Some(Open(word) + [s[0]]), vars)
  }

  /** Inside single quotes the escaped text adds exactly the original, whatever it holds. */
  lemma {:induction false} EscapedReads(arg: string, rest: string, word: string, vars: string -> string)
    ensures Words(Escape(arg) + "'" + rest, Single, Some(word), vars) == Words(rest, Plain, Some(word + arg), vars)
    decreases |arg|
  {
    var s := Escape(arg) + "'" + rest;
    if arg == [] {
      assert s == "'" + rest && s[1..] == rest && word + arg == word;
    } else {
      var tail := Escape(arg[1..]) + "'" + rest;
      EscapedReads(arg[1..], rest, word + [arg[0]], vars);
      assert word + [arg[0]] + arg[1..] == word + arg;
      if arg[0] == '\'' {
        assert s == ['\'', '\\', '\'', '\''] + tail;
        FourCharacters(tail, word, vars);
      } else {
        assert s == [arg[0]] + tail && s[1..] == tail;
      }
    }
  }

  /** Close, an escaped quote, and open again. */
  lemma FourCharacters(tail: string, word: string, vars: string -> string)
    ensures Words(['\'', '\\', '\'', '\''] + tail, Single, Some(word), vars)
            == Words(tail, Single, Some(word + ['\'']), vars)
  {
    var s := ['\'', '\\', '\'', '\''] + tail;
    var a, b := s[1..], s[3..];
    assert a == ['\\', '\'', '\''] + tail && a[2..] == b && b == ['\''] + tail && b[1..] == tail;
    calc {
      Words(s, Single, Some(word), vars);
      Words(a, Plain, Some(word), vars);
      Words(b, Plain, Some(word + ['\'']), vars);
      Words(tail, Single, Some(word + ['\'']), vars);
    }
  }

  /** A quoted argument is read as one field, whatever it holds. */
  lemma QuoteReads(arg: string, rest: string, vars: string -> string)
    ensures Words(Quote(arg) + rest, Plain, None, vars) == Words(rest, Plain, Some(arg), vars)
  {
    var s := Quote(arg) + rest;
    assert s[1..] == Escape(arg) + "'" + rest;
    EscapedReads(arg, rest, "", vars);
    assert "" + arg == arg;
  }

  lemma BlankReads(rest: string, word: string, vars: string -> string)
    ensures var more := Words(rest, Plain, None, vars);
            Words(" " + rest, Plain, Some(word), vars) == if more.Some? then Some([word] + more.value) else None
  {
    assert (" " + rest)[1..] == rest;
  }

  /** Joined quoted arguments split into exactly those arguments: empty ones, quotes, newlines and dollars included. */
  lemma {:induction false} JoinedFields(args: seq<string>, vars: string -> string)
    ensures Words(Join(Quoted(args), " "), Plain, None, vars) == Some(args)
  {
    hide Words, Quote;
    if args == [] {
      EndReads(vars);
    } else {
      var tail := Quoted(args[1..]);
      assert Quoted(args)[1..] == tail;
      if |args| == 1 {
        assert Join(Quoted(args), " ") == Quote(args[0]) == Quote(args[0]) + "";
        QuoteReads(args[0], "", vars);
        EndReads(vars);
        assert args == [args[0]];
      } else {
        JoinedFields(args[1..], vars);
        var rest := Join(tail, " ");
        assert Join(Quoted(args), " ") == Quote(args[0]) + (" " + rest);
        QuoteReads(args[0], " " + rest, vars);
        BlankReads(rest, args[0], vars);
        assert args == [args[0]] + args[1..];
      }
    }
  }

  lemma EndReads(vars: string -> string)
    ensures Words("", Plain, None, vars) == Some([])
    ensures forall word :: Words("", Plain, Some(word), vars) == Some([word])
  {
  }

  lemma PlainChar(c: char, rest: string, word: Option<string>, vars: string -> string)
    requires IsPlain(c)
    ensures Words([c] + rest, Plain, word, vars) == Words(rest, Plain, Some(Open(word) + [c]), vars)
  {
    assert ([c] + rest)[1..] == rest;
  }

  /** Plain text outside quotes stands for itself. */
  lemma {:induction false} PlainReads(text: string, rest: string, word: Option<string>, vars: string -> string)
    requires text != "" && forall k :: 0 <= k < |text| ==> IsPlain(text[k])
    ensures Words(text + rest, Plain, word, vars) == Words(rest, Plain, Some(Open(word) + text), vars)
    decreases |text|
  {
    hide Words, IsPlain;
    var tail := text[1..] + rest;
    assert text + rest == [text[0]] + tail;
    PlainChar(text[0], tail, word, vars);
    var next := Some(Open(word) + [text[0]]);
    if |text| == 1 {
      assert tail == rest && Open(word) + text == Open(word) + [text[0]];
    } else {
      PlainReads(text[1..], rest, next, vars);
      assert Open(next) + text[1..] == Open(word) + text;
    }
  }

  /** A plain word followed by a blank. */
  lemma WordReads(text: string, rest: string, vars: string -> string)
    requires text != "" && forall k :: 0 <= k < |text| ==> IsPlain(text[k])
    ensures var more := Words(rest, Plain, None, vars);
            Words(text + " " + rest, Plain, None, vars) == if more.Some? then Some([text] + more.value) else None
  {
    hide Words;
    assert text + " " + rest == text + (" " + rest) && "" + text == text;
    PlainReads(text, " " + rest, None, vars);
    BlankReads(rest, text, vars);
  }

  /** The remote command line: sudo gets the arguments as they were. */
  lemma RemoteCommandFields(args: seq<string>)
    ensures Words("sudo -- " + Join(Quoted(args), " "), Plain, None, NO_VARIABLES) == Some(["sudo", "--"] + args)
  {
    hide Words;
    var joined := Join(Quoted(args), " ");
    JoinedFields(args, NO_VARIABLES);
    assert "sudo -- " + joined == "sudo" + " " + ("--" + " " + joined);
    WordReads("--", joined, NO_VARIABLES);
    WordReads("sudo", "--" + " " + joined, NO_VARIABLES);
    assert ["sudo"] + (["--"] + args) == ["sudo", "--"] + args;
  }

  // ---- the k3s boot line ----

  function Tail(args: seq<string>): string { if args == [] then "" else " " + Quote(args[0]) + Tail(args[1..]) }

  lemma {:induction false} TailSnoc(args: seq<string>, a: string)
    ensures Tail(args + [a]) == Tail(args) + " " + Quote(a)
  {
    hide Quote;
    if args == [] {
      assert args + [a] == [a] && [a][1..] == [];
    } else {
      assert (args + [a])[1..] == args[1..] + [a];
      TailSnoc(args[1..], a);
    }
  }

  /** The addresses the VM learns only after it boots, in double quotes. */
  const NODE_IP := " --node-ip=\"$KIAC_V4,$KIAC_V6\""

  function NodeIPFlag(vars: string -> string): string { "--node-ip=" + vars("KIAC_V4") + "," + vars("KIAC_V6") }

  lemma {:induction false} TailReads(args: seq<string>, end: string, extra: seq<string>, word: string,
        vars: string -> string)
    requires forall w :: Words(end, Plain, Some(w), vars) == Some([w] + extra)
    ensures Words(Tail(args) + end, Plain, Some(word), vars) == Some([word] + args + extra)
    decreases |args|
  {
    hide Words, Quote;
    if args == [] {
      assert Tail(args) + end == end && [word] + args + extra == [word] + extra;
    } else {
      var rest := Tail(args[1..]) + end;
      TailReads(args[1..], end, extra, args[0], vars);
      assert Tail(args) + end == " " + (Quote(args[0]) + rest);
      BlankReads(Quote(args[0]) + rest, word, vars);
      QuoteReads(args[0], rest, vars);
      assert [word] + ([args[0]] + args[1..] + extra) == [word] + args + extra;
    }
  }

  /** A variable in double quotes adds its value to the field, unsplit. */
  lemma VariableReads(name: string, rest: string, word: string, vars: string -> string)
    requires name != "" && (forall k :: 0 <= k < |name| ==> IsNameChar(name[k])) && rest != "" && !IsNameChar(rest[0])
    ensures Words("$" + name + rest, Double, Some(word), vars) == Words(rest, Double, Some(word + vars(name)), vars)
  {
    var s := "$" + name + rest;
    assert s[1..] == name + rest;
    assert forall k :: 0 <= k < |name| ==> (name + rest)[k] == name[k];
    assert (name + rest)[|name|] == rest[0];
    assert NameEnd(name + rest) == |name|;
    assert s[1..1 + |name|] == name && s[1 + |name|..] == rest;
  }

  lemma DoubleQuoteReads(rest: string, word: string, vars: string -> string)
    ensures Words("\"" + rest, Plain, Some(word), vars) == Words(rest, Double, Some(word), vars)
    ensures Words("\"" + rest, Double, Some(word), vars) == Words(rest, Plain, Some(word), vars)
    ensures Words("," + rest, Double, Some(word), vars) == Words(rest, Double, Some(word + ","), vars)
  {
    assert ("\"" + rest)[1..] == rest && ("," + rest)[1..] == rest;
  }

  /** A plain flag with two variables in double quotes, after another word. */
  lemma FlagReads(flag: string, a: string, b: string, word: string, vars: string -> string)
    requires PlainWord(flag) && Name(a) && Name(b)
    ensures Words(" " + (flag + ("\"" + ("$" + a + ("," + ("$" + b + ("\"" + "")))))), Plain, Some(word), vars)
         == Some([word] + [flag + vars(a) + "," + vars(b)])
  {
    hide Words;
    var close := "\"" + "";
    var second := "$" + b + close;
    var first := "$" + a + ("," + second);
    BlankReads(flag + ("\"" + first), word, vars);
    PlainReads(flag, "\"" + first, None, vars);
    assert "" + flag == flag;
    DoubleQuoteReads(first, flag, vars);
    VariableReads(a, "," + second, flag, vars);
    DoubleQuoteReads(second, flag + vars(a), vars);
    VariableReads(b, close, flag + vars(a) + ",", vars);
    DoubleQuoteReads("", flag + vars(a) + "," + vars(b), vars);
    EndReads(vars);
  }

  predicate PlainWord(s: string) { s != "" && forall k :: 0 <= k < |s| ==> IsPlain(s[k]) }

  predicate Name(s: string) { s != "" && forall k :: 0 <= k < |s| ==> IsNameChar(s[k]) }

  lemma NodeIPPieces()
    ensures NODE_IP == " " + ("--node-ip=" + ("\"" + ("$" + "KIAC_V4" + ("," + ("$" + "KIAC_V6" + ("\"" + ""))))))
  {
  }

  lemma NodeIPReads(word: string, vars: string -> string)
    ensures Words(NODE_IP, Plain, Some(word), vars) == Some([word] + [NodeIPFlag(vars)])
  {
    hide Words;
    FlagReads("--node-ip=", "KIAC_V4", "KIAC_V6", word, vars);
    NodeIPPieces();
  }

  /** The end of the boot script: exec the supervisor with the k3s arguments, and the node addresses on dual stack. */
  method BootLine(supervisor: string, args: seq<string>, dualStack: bool) returns (line: string)
    ensures line == "exec sh -c " + Quote(supervisor) + " sh" + Tail(args) + if dualStack then NODE_IP else ""
    ensures forall vars :: Words(line, Plain, None, vars) ==
              Some(["exec", "sh", "-c", supervisor, "sh"] + args + if dualStack then [NodeIPFlag(vars)] else [])
  {
    hide Words, Quote;
    line := "exec sh -c " + Quote(supervisor) + " sh";
    for i := 0 to |args|
      invariant line == "exec sh -c " + Quote(supervisor) + " sh" + Tail(args[..i])
    {
      TailSnoc(args[..i], args[i]);
      assert args[..i + 1] == args[..i] + [args[i]];
      line := line + " " + Quote(args[i]);
    }
    assert args[..|args|] == args;
    line := line + if dualStack then NODE_IP else "";
    forall vars ensures Words(line, Plain, None, vars) ==
                          Some(["exec", "sh", "-c", supervisor, "sh"] + args
                               + if dualStack then [NodeIPFlag(vars)] else []) {
      BootLineReads(supervisor, args, dualStack, vars);
    }
  }

  /** Three plain words, a quoted one and another plain one before the rest. */
  lemma LineReads(a: string, b: string, c: string, q: string, d: string, rest: string, fields: seq<string>,
        vars: string -> string)
    requires PlainWord(a) && PlainWord(b) && PlainWord(c) && PlainWord(d)
    requires Words(rest, Plain, Some(d), vars) == Some([d] + fields)
    ensures Words(a + " " + (b + " " + (c + " " + (Quote(q) + (" " + (d + rest))))), Plain, None, vars)
            == Some([a, b, c, q, d] + fields)
  {
    hide Words, Quote;
    PlainReads(d, rest, None, vars);
    assert "" + d == d;
    var tail := " " + (d + rest);
    QuoteReads(q, tail, vars);
    BlankReads(d + rest, q, vars);
    WordReads(c, Quote(q) + tail, vars);
    WordReads(b, c + " " + (Quote(q) + tail), vars);
    WordReads(a, b + " " + (c + " " + (Quote(q) + tail)), vars);
    assert [a] + ([b] + ([c] + ([q] + ([d] + fields)))) == [a, b, c, q, d] + fields;
  }

  lemma Regroup(a: string, b: string, c: string, q: string, d: string, tail: string, end: string)
    ensures a + " " + b + " " + c + " " + q + " " + d + tail + end
            == a + " " + (b + " " + (c + " " + (q + (" " + (d + (tail + end))))))
  {
  }

  lemma EndOfLine(dualStack: bool, w: string, vars: string -> string)
    ensures Words(if dualStack then NODE_IP else "", Plain, Some(w), vars)
            == Some([w] + if dualStack then [NodeIPFlag(vars)] else [])
  {
    hide Words;
    if dualStack {
      NodeIPReads(w, vars);
    } else {
      EndReads(vars);
      assert [w] + [] == [w];
    }
  }

  lemma BootLineReads(supervisor: string, args: seq<string>, dualStack: bool, vars: string -> string)
    ensures Words("exec sh -c " + Quote(supervisor) + " sh" + Tail(args) + (if dualStack then NODE_IP else ""),
                  Plain, None, vars) ==
              Some(["exec", "sh", "-c", supervisor, "sh"] + args + if dualStack then [NodeIPFlag(vars)] else [])
  {
    hide Words, Quote, Tail, NodeIPFlag;
    var end, extra := if dualStack then NODE_IP else "", if dualStack then [NodeIPFlag(vars)] else [];
    forall w ensures Words(end, Plain, Some(w), vars) == Some([w] + extra) { EndOfLine(dualStack, w, vars); }
    var a, b, c, q, d, tail := "exec", "sh", "-c", Quote(supervisor), "sh", Tail(args);
    TailReads(args, end, extra, d, vars);
    var fields := args + extra;
    assert [d] + args + extra == [d] + fields;
    LineReads(a, b, c, supervisor, d, tail + end, fields, vars);
    Regroup(a, b, c, q, d, tail, end);
    Literals(q, tail, end);
    assert [a, b, c, supervisor, d] + fields == [a, b, c, supervisor, d] + args + extra;
  }

  lemma Literals(q: string, tail: string, end: string)
    ensures "exec sh -c " + q + " sh" + tail + end
            == "exec" + " " + "sh" + " " + "-c" + " " + q + " " + "sh" + tail + end
  {
    assert "exec sh -c " == "exec" + " " + "sh" + " " + "-c" + " ";
    assert " sh" == " " + "sh";
    var p := "exec sh -c " + q;
    assert p + " sh" == p + " " + "sh";
  }
}
