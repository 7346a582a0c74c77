// src/Utils/MessageParser.cpp: one line of text, fields separated by ';'.
module Codec {
  import opened Text

  const DELIMITER_CHAR := ';'
  const DELIMITER := [DELIMITER_CHAR]

  datatype ParsedMessage = ParsedMessage(command: string, arguments: seq<string>, isValid: bool) {
    function ArgCount(): nat { |arguments| }

    function Arg(index: nat): string {
      if index < |arguments| then arguments[index] else ""
    }
  }

  // Without exactly one trailing newline, if there is one.
  function Chomped(raw: string): string {
    if raw != "" && raw[|raw| - 1] == '\n' then raw[..|raw| - 1] else raw
  }

  function Parsed(raw: string): ParsedMessage {
    var parts := Tokens(Chomped(raw), DELIMITER);
    if parts == [] then ParsedMessage("", [], false) else ParsedMessage(parts[0], parts[1..], true)
  }

  function Line(command: string, args: seq<string>): string {
    Join([command] + args, DELIMITER) + "\n"
  }

  method Parse(rawMessage: string) returns (result: ParsedMessage)
    ensures result == Parsed(rawMessage)
  {
    result := ParsedMessage("", [], false);
    if rawMessage == "" {
      return;
    }
    var cleaned := rawMessage;
    if cleaned[|cleaned| - 1] == '\n' {
      cleaned := cleaned[..|cleaned| - 1];
    }
    var parts := Split(cleaned, DELIMITER);
    if parts == [] {
      return;
    }
    result := ParsedMessage(parts[0], parts[1..], true);
  }

  method Build(command: string, args: seq<string>) returns (line: string)
    ensures line == Line(command, args)
  {
    var oss := command;
    for i := 0 to |args|
      invariant oss == Join([command] + args[..i], DELIMITER)
    {
      JoinSnoc([command] + args[..i], args[i], DELIMITER);
      assert [command] + args[..i] + [args[i]] == [command] + args[..i + 1];
      oss := oss + DELIMITER + args[i];
    }
    assert args[..|args|] == args;
    line := oss + "\n";
  }

  lemma {:induction false} JoinSnoc(ts: seq<string>, t: string, d: string)
    requires ts != []
    ensures Join(ts + [t], d) == Join(ts, d) + d + t
  {
    if |ts| == 1 {
      assert (ts + [t])[1..] == [t];
    } else {
      JoinSnoc(ts[1..], t, d);
      assert (ts + [t])[1..] == ts[1..] + [t];
    }
  }

  // Parsing undoes building exactly for delimiter-free fields, the empty command
  // without arguments excepted. Fields may contain newlines.
  lemma ParseBuild(command: string, args: seq<string>)
    ensures Parsed(Line(command, args)) == ParsedMessage(command, args, true)
       <==> Free(command, DELIMITER) && (forall a | a in args :: Free(a, DELIMITER)) && !(command == "" && args == [])
  {
    var fields := [command] + args;
    assert Chomped(Line(command, args)) == Join(fields, DELIMITER);
    SplitJoin(fields, DELIMITER_CHAR);
    assert fields[0] == command && fields[1..] == args;
    assert (forall t | t in fields :: Free(t, DELIMITER)) <==>
           Free(command, DELIMITER) && forall a | a in args :: Free(a, DELIMITER);
    var tokens := Tokens(Join(fields, DELIMITER), DELIMITER);
    if tokens != [] && tokens[0] == command && tokens[1..] == args {
      assert tokens == [tokens[0]] + tokens[1..];
    }
  }

  // Whatever the arguments, the command survives and each argument contributes its pieces.
  lemma BuiltFields(command: string, args: seq<string>)
    requires command != "" && Free(command, DELIMITER)
    ensures Parsed(Line(command, args)) == ParsedMessage(command, AllPieces(args, DELIMITER), true)
  {
    var fields := [command] + args;
    assert Chomped(Line(command, args)) == Join(fields, DELIMITER);
    PiecesOfJoin(fields, DELIMITER_CHAR);
    assert fields[1..] == args;
    assert Pieces(command, DELIMITER) == [command];
    JoinLength(fields, DELIMITER);
  }

  lemma {:induction false} JoinLength(ts: seq<string>, d: string)
    requires ts != []
    ensures |Join(ts, d)| >= |ts[0]|
  {
  }

  // A line is valid unless nothing is left of it; building a valid parse again gives
  // the line with one newline at its end, and then nothing changes any more.
  lemma BuildParse(raw: string)
    ensures Parsed(raw).isValid <==> raw != "" && raw != "\n"
    ensures Parsed(raw).isValid ==> Line(Parsed(raw).command, Parsed(raw).arguments)
                                    == if raw[|raw| - 1] == '\n' then raw else raw + "\n"
    ensures Parsed(raw).isValid ==> Parsed(Line(Parsed(raw).command, Parsed(raw).arguments)) == Parsed(raw)
  {
    var text := Chomped(raw);
    if text != "" {
      JoinTokens(text, DELIMITER);
      var p := Parsed(raw);
      assert [p.command] + p.arguments == Tokens(text, DELIMITER);
      assert Chomped(text + "\n") == text;
    }
  }

  // The fields of a parsed line never contain the delimiter.
  lemma ParsedFieldsAreFree(raw: string)
    ensures Free(Parsed(raw).command, DELIMITER)
    ensures forall a | a in Parsed(raw).arguments :: Free(a, DELIMITER)
  {
    TokensAreFree(Chomped(raw), DELIMITER);
    FreeOfChar("", DELIMITER_CHAR);
  }

  // The line is at least as long as its fields and the delimiters between them.
  lemma {:induction false} FieldsFit(ts: seq<string>, d: string, n: nat)
    requires n < |ts|
    ensures |Join(ts, d)| >= |Join(ts[..n + 1], d)|
  {
    if n == 0 {
      JoinLength(ts, d);
    } else {
      FieldsFit(ts[1..], d, n - 1);
      assert ts[1..][..n] == ts[..n + 1][1..];
    }
  }
}
