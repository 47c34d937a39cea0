/** One revocation as a line of the log, and the text of a log file. */
module LogLine {
  import opened Decimal

  datatype Record = Record(token: string, exp: int)

  // What logRevoke hands to the log queue.
  function Line(r: Record): string
  {
    r.token + "," + ToString(r.exp)
  }

  // The place of the first `c`, or the end.
  function Find(s: string, c: char): (i: nat)
    ensures i <= |s| && c !in s[..i]
    ensures i < |s| ==> s[i] == c
  {
    if s == "" || s[0] == c then 0 else 1 + Find(s[1..], c)
  }

  lemma FindIsFirst(s: string, c: char, i: nat)
    requires i <= |s| && c !in s[..i] && (i < |s| ==> s[i] == c)
    ensures Find(s, c) == i
  {
  }

  lemma FindAtMost(s: string, c: char, k: nat)
    requires k < |s| && s[k] == c
    ensures Find(s, c) <= k
  {
  }

  // What recoverFromLog makes of one line: nothing when one of its two getline calls
  // extracts no character, and an exception when stol refuses the second field.
  datatype Parsed = Skipped | Parsed(record: Record) | Thrown

  function Parse(line: string): Parsed
  {
    var i := Find(line, ',');
    if i + 1 >= |line| then Skipped
    else
      var rest := line[i + 1..];
      match Stoll(rest[..Find(rest, '\n')])
      case Converted(exp) => Parsed(Record(line[..i], exp))
      case _ => Thrown
  }

  lemma LineRoundTrip(r: Record)
    requires IsInt64(r.exp)
    ensures Parse(Line(r)) == Parsed(r) <==> ',' !in r.token
  {
    var line := Line(r);
    if ',' !in r.token {
      assert line[..|r.token|] == r.token;
      FindIsFirst(line, ',', |r.token|);
      var rest := line[|r.token| + 1..];
      assert rest == ToString(r.exp);
      assert '\n' !in rest;
      FindIsFirst(rest, '\n', |rest|);
      assert rest[..|rest|] == rest;
      StollOfToString(r.exp);
    } else {
      var k :| 0 <= k < |r.token| && r.token[k] == ',';
      assert line[k] == ',';
      FindAtMost(line, ',', k);
    }
  }

  // `s` up to its first newline.
  function FirstLineOf(s: string): string
  {
    s[..Find(s, '\n')]
  }

  // What stands between the first comma of a token and the next comma or newline is read as
  // the expiry in place of the one that was logged.
  function MistakenExpiry(token: string): Conversion
    requires ',' in token
  {
    Stoll(FirstLineOf(After(token, ',')))
  }

  // What follows the first `c`.
  function After(s: string, c: char): string
    requires c in s
  {
    FindIn(s, c);
    s[Find(s, c) + 1..]
  }

  lemma FindIn(s: string, c: char)
    requires c in s
    ensures Find(s, c) < |s|
  {
    var k :| 0 <= k < |s| && s[k] == c;
    FindAtMost(s, c, k);
  }

  // What a rebuild makes of token, comma and expiry on one line: without a comma in the
  // token, the record; with one, the record of another token if a number can be read after
  // it, and otherwise the exception that ends the process.
  lemma ParseOfLine(r: Record)
    requires IsInt64(r.exp)
    ensures Parse(Line(r)) ==
              if ',' !in r.token then Parsed(r)
              else
                match MistakenExpiry(r.token)
                case Converted(exp) => Parsed(Record(r.token[..Find(r.token, ',')], exp))
                case _ => Thrown
  {
    hide Stoll, Parse;
    LineRoundTrip(r);
    if ',' in r.token {
      var i, rest := Find(r.token, ','), After(r.token, ',');
      FindIn(r.token, ',');
      var line, tail := Line(r), ToString(r.exp);
      assert line == r.token[..i] + "," + (rest + "," + tail);
      ParseAt(line, i);
      assert line[i + 1..] == rest + "," + tail && line[..i] == r.token[..i];
      SameReading(rest, tail);
    }
  }

  lemma ParseAt(line: string, i: nat)
    requires i + 1 < |line| && ',' !in line[..i] && line[i] == ','
    ensures Parse(line) == match Stoll(FirstLineOf(line[i + 1..]))
                           case Converted(exp) => Parsed(Record(line[..i], exp))
                           case _ => Thrown
  {
    hide Stoll;
    FindIsFirst(line, ',', i);
  }

  // The logged expiry, which stands after another comma, is not looked at.
  lemma SameReading(rest: string, tail: string)
    ensures Stoll(FirstLineOf(rest + "," + tail)) == Stoll(FirstLineOf(rest))
  {
    hide Stoll, Find, FirstLineOf;
    if '\n' in rest {
      FirstLineIsInFront(rest, "," + tail);
      assert rest + "," + tail == rest + ("," + tail);
    } else {
      FirstLineGoesOn(rest + ",", tail);
      FirstLineGoesOn(rest, "");
      assert rest + "" == rest && FirstLineOf("") == "" by { FindIsFirst("", '\n', 0); FirstLineIs("", 0); }
      assert FirstLineOf(rest) == rest;
      StollStopsAtComma(rest, FirstLineOf(tail));
    }
  }

  lemma FirstLineIs(s: string, i: nat)
    requires i <= |s| && '\n' !in s[..i] && (i < |s| ==> s[i] == '\n')
    ensures FirstLineOf(s) == s[..i]
  {
    FindIsFirst(s, '\n', i);
  }

  lemma FirstLineIsInFront(a: string, b: string)
    requires '\n' in a
    ensures FirstLineOf(a + b) == FirstLineOf(a)
  {
    FindIn(a, '\n');
    var i := Find(a, '\n');
    assert (a + b)[..i] == a[..i];
    FirstLineIs(a + b, i);
  }

  lemma FirstLineGoesOn(a: string, b: string)
    requires '\n' !in a
    ensures FirstLineOf(a + b) == a + FirstLineOf(b)
  {
    var i := Find(b, '\n');
    assert (a + b)[..|a| + i] == a + b[..i];
    FirstLineIs(a + b, |a| + i);
  }

  // std::getline on a whole file.
  function Lines(text: string): seq<string>
    decreases |text|
  {
    if text == "" then []
    else
      var i := Find(text, '\n');
      [text[..i]] + (if i < |text| then Lines(text[i + 1..]) else [])
  }

  // The text of a file to which the lines were appended one by one.
  function FileText(lines: seq<string>): (text: string)
    ensures IsTerminated(text)
  {
    if lines == [] then ""
    else FileText(lines[..|lines| - 1]) + lines[|lines| - 1] + "\n"
  }

  lemma NoLines()
    ensures Lines("") == []
  {
  }

  lemma FirstLine(text: string, i: nat)
    requires i < |text| && '\n' !in text[..i] && text[i] == '\n'
    ensures Lines(text) == [text[..i]] + Lines(text[i + 1..])
  {
  }

  // A text whose last line is complete.
  predicate IsTerminated(text: string)
  {
    text == "" || text[|text| - 1] == '\n'
  }

  lemma {:induction false} LinesAppend(a: string, b: string)
    requires IsTerminated(a)
    ensures Lines(a + b) == Lines(a) + Lines(b)
    decreases |a|
  {
    hide Lines;
    NoLines();
    if a == "" {
      assert a + b == b;
    } else {
      var i := Find(a, '\n');
      FindAtMost(a, '\n', |a| - 1);
      assert (a + b)[..i] == a[..i] && (a + b)[i + 1..] == a[i + 1..] + b;
      FirstLine(a, i);
      FirstLine(a + b, i);
      LinesAppend(a[i + 1..], b);
    }
  }

  lemma LinesOfAppended(text: string, line: string)
    requires IsTerminated(text) && '\n' !in line
    ensures Lines(text + line + "\n") == Lines(text) + [line]
  {
    hide Lines;
    NoLines();
    var last := line + "\n";
    assert text + line + "\n" == text + last;
    LinesAppend(text, last);
    assert last[..|line|] == line && last[|line| + 1..] == "";
    FirstLine(last, |line|);
  }

  lemma {:induction false} LinesHaveNoNewline(text: string)
    ensures forall line :: line in Lines(text) ==> '\n' !in line
    decreases |text|
  {
    var i := Find(text, '\n');
    if i < |text| {
      LinesHaveNoNewline(text[i + 1..]);
    }
  }

  ghost predicate AreLines(lines: seq<string>)
  {
    forall line :: line in lines ==> '\n' !in line
  }

  lemma {:induction false} CleanLinesComeBack(lines: seq<string>)
    requires AreLines(lines)
    ensures Lines(FileText(lines)) == lines
  {
    hide Lines;
    NoLines();
    if lines != [] {
      var front := lines[..|lines| - 1];
      CleanLinesComeBack(front);
      assert lines == front + [lines[|lines| - 1]];
      LinesOfAppended(FileText(front), lines[|lines| - 1]);
    }
  }

  // A log file is read back as it was written exactly when no line holds a newline.
  lemma LogFileRoundTrip(lines: seq<string>)
    ensures Lines(FileText(lines)) == lines <==> AreLines(lines)
  {
    hide Lines;
    LinesHaveNoNewline(FileText(lines));
    if AreLines(lines) {
      CleanLinesComeBack(lines);
    }
  }

  lemma AppendedFile(lines: seq<string>, line: string)
    ensures FileText(lines + [line]) == FileText(lines) + line + "\n"
    ensures FileText([]) == ""
  {
  }

  lemma {:induction false} PrependedFile(line: string, lines: seq<string>)
    ensures FileText([line] + lines) == line + "\n" + FileText(lines)
  {
    hide FileText;
    AppendedFile([], line);
    if lines == [] {
      assert [line] + lines == [] + [line];
    } else {
      var front, last := lines[..|lines| - 1], lines[|lines| - 1];
      PrependedFile(line, front);
      AppendedFile([line] + front, last);
      AppendedFile(front, last);
      assert lines == front + [last] && [line] + lines == ([line] + front) + [last];
    }
  }

  // And a text whose last line is complete is made of the lines read from it.
  lemma {:induction false} TextRoundTrip(text: string)
    requires IsTerminated(text)
    ensures FileText(Lines(text)) == text
    decreases |text|
  {
    hide Lines, FileText;
    if text == "" {
      NoLines();
      AppendedFile([], "");
    } else {
      var i := Find(text, '\n');
      FindAtMost(text, '\n', |text| - 1);
      FirstLine(text, i);
      TextRoundTrip(text[i + 1..]);
      PrependedFile(text[..i], Lines(text[i + 1..]));
      assert text == text[..i] + "\n" + text[i + 1..];
    }
  }

  // What a file gives back is what each of the strings written to it would give back alone.
  lemma {:induction false} InFileText(lines: seq<string>, x: string)
    ensures x in Lines(FileText(lines)) <==> exists k :: 0 <= k < |lines| && x in Lines(lines[k] + "\n")
  {
    hide Lines;
    if lines == [] {
      NoLines();
    } else {
      var front, last := lines[..|lines| - 1], lines[|lines| - 1];
      InFileText(front, x);
      assert FileText(lines) == FileText(front) + (last + "\n");
      LinesAppend(FileText(front), last + "\n");
      assert forall k :: 0 <= k < |front| ==> front[k] == lines[k];
    }
  }

  // Records in a file, whatever their tokens.

  // A token, cut at its newlines.
  function Pieces(token: string): (pieces: seq<string>)
    ensures pieces != []
  {
    Lines(token + "\n")
  }

  lemma PiecesMakeTheToken(token: string)
    ensures FileText(Pieces(token)) == token + "\n"
    ensures forall piece :: piece in Pieces(token) ==> '\n' !in piece
  {
    hide Lines, FileText;
    TextRoundTrip(token + "\n");
    LinesHaveNoNewline(token + "\n");
  }

  lemma OnePiece(s: string)
    requires '\n' !in s
    ensures Lines(s + "\n") == [s]
  {
    hide Lines;
    NoLines();
    assert s + "\n" == "" + s + "\n";
    LinesOfAppended("", s);
  }

  lemma LineIsOneLine(r: Record)
    requires '\n' !in r.token
    ensures '\n' !in Line(r) && Lines(Line(r) + "\n") == [Line(r)]
  {
    OnePiece(Line(r));
  }

  // What a record leaves in a file: the pieces of its token but the last, as lines of their
  // own, and the last one with the expiry.
  lemma {:induction false} LinesOfRecord(r: Record)
    ensures var pieces := Pieces(r.token);
            Lines(Line(r) + "\n") == pieces[..|pieces| - 1] + [Line(Record(pieces[|pieces| - 1], r.exp))]
    decreases |r.token|
  {
    hide Lines, ToString, Find;
    if '\n' !in r.token {
      OnePiece(r.token);
      LineIsOneLine(r);
    } else {
      FindIn(r.token, '\n');
      var i := Find(r.token, '\n');
      var rest := Record(r.token[i + 1..], r.exp);
      LinesOfRecord(rest);
      assert r.token + "," + ToString(r.exp) + "\n" == r.token + ("," + ToString(r.exp) + "\n");
      assert rest.token + "," + ToString(r.exp) + "\n" == rest.token + ("," + ToString(r.exp) + "\n");
      FirstLineOfMore(r.token, "," + ToString(r.exp) + "\n");
      FirstLineOfMore(r.token, "\n");
    }
  }

  lemma FirstLineOfMore(s: string, more: string)
    requires '\n' in s
    ensures var i := Find(s, '\n');
            i < |s| && Lines(s + more) == [s[..i]] + Lines(s[i + 1..] + more)
  {
    hide Lines;
    FindIn(s, '\n');
    var i, text := Find(s, '\n'), s + more;
    assert text[..i] == s[..i] && text[i + 1..] == s[i + 1..] + more;
    FirstLine(text, i);
  }

  // A piece has a comma before something that is not a 64-bit number; what the last piece
  // has after its comma is never nothing, because the expiry follows.
  predicate IsUnreadablePiece(piece: string, isLast: bool)
  {
    ',' in piece && !MistakenExpiry(piece).Converted? && (After(piece, ',') == "" ==> isLast)
  }

  ghost predicate IsUnreadable(token: string)
  {
    var pieces := Pieces(token);
    exists k :: 0 <= k < |pieces| && IsUnreadablePiece(pieces[k], k == |pieces| - 1)
  }

  lemma PieceThrows(piece: string)
    ensures Parse(piece).Thrown? <==> IsUnreadablePiece(piece, false)
  {
    hide Stoll;
    var i := Find(piece, ',');
    if i + 1 < |piece| {
      assert piece[i] == ',';
      assert After(piece, ',') == piece[i + 1..];
      ParseAt(piece, i);
    } else if ',' in piece {
      FindIn(piece, ',');
      assert After(piece, ',') == "";
    }
  }

  lemma LastPieceThrows(r: Record)
    requires IsInt64(r.exp)
    ensures Parse(Line(r)).Thrown? <==> IsUnreadablePiece(r.token, true)
  {
    hide Parse, Line, MistakenExpiry;
    ParseOfLine(r);
  }

  // Reading back what a record left in a file throws exactly when its token is unreadable.
  lemma RecordThrowsExactly(r: Record)
    requires IsInt64(r.exp)
    ensures (exists line :: line in Lines(Line(r) + "\n") && Parse(line).Thrown?) <==> IsUnreadable(r.token)
  {
    hide Lines, Line, Parse, IsUnreadablePiece, Pieces;
    var lines, pieces := Lines(Line(r) + "\n"), Pieces(r.token);
    var n := |pieces| - 1;
    LinesOfRecord(r);
    forall k | 0 <= k <= n
      ensures Parse(lines[k]).Thrown? <==> IsUnreadablePiece(pieces[k], k == n)
    {
      if k < n {
        PieceThrows(pieces[k]);
      } else {
        LastPieceThrows(Record(pieces[n], r.exp));
      }
    }
    if line :| line in lines && Parse(line).Thrown? {
      var k :| 0 <= k < |lines| && lines[k] == line;
    }
    if k :| 0 <= k <= n && IsUnreadablePiece(pieces[k], k == n) {
      var line := lines[k];
      assert line in lines;
    }
  }

  // A token that the log brings back as it was.
  predicate IsClean(token: string)
  {
    ',' !in token && '\n' !in token
  }

  // Examples.

  // A token with one comma revokes the token before it, or ends the process.
  lemma OneComma(a: string, b: string, exp: int)
    requires IsInt64(exp) && ',' !in a && '\n' !in a && '\n' !in b
    ensures Parse(Line(Record(a + "," + b, exp))) ==
              match Stoll(b) case Converted(n) => Parsed(Record(a, n)) case _ => Thrown
    ensures IsUnreadable(a + "," + b) <==> !Stoll(b).Converted?
  {
    hide Parse, Line, Find, Stoll, IsUnreadable, IsUnreadablePiece;
    var r := Record(a + "," + b, exp);
    ParseOfLine(r);
    AfterComma(a, b);
    LastPieceThrows(r);
    OnePieceIsAll(r.token);
  }

  lemma CommasInTokens()
    ensures Parse(Line(Record("a,b", 7))) == Thrown && IsUnreadable("a,b")
    ensures Parse(Line(Record("a,5", 7))) == Parsed(Record("a", 5))
  {
    hide Parse, Line, Stoll, IsUnreadable;
    assert "a,b" == "a" + "," + "b" && "a,5" == "a" + "," + "5";
    OneComma("a", "b", 7);
    OneComma("a", "5", 7);
    NoDigitsInB();
    OneDigit(5);
    StollOfToString(5);
  }

  // Without a newline, the token is unreadable when it is as the last piece.
  lemma OnePieceIsAll(token: string)
    requires '\n' !in token
    ensures IsUnreadable(token) <==> IsUnreadablePiece(token, true)
  {
    hide IsUnreadablePiece;
    OnePiece(token);
    var pieces := Pieces(token);
    assert pieces[0] == token;
  }

  lemma NoDigitsInB()
    ensures Stoll("b") == InvalidArgument
  {
    assert LeadingDigits("b") == "";
  }

  lemma AfterComma(a: string, b: string)
    requires ',' !in a && '\n' !in b
    ensures var token := a + "," + b;
            ',' in token && Find(token, ',') == |a| && token[..|a|] == a
            && After(token, ',') == b && MistakenExpiry(token) == Stoll(b)
  {
    hide Stoll;
    var token := a + "," + b;
    assert token[|a|] == ',' && token[..|a|] == a;
    FindIsFirst(token, ',', |a|);
    FirstLineIs(b, |b|);
    assert b[..|b|] == b;
  }

  // With a newline after its comma a token throws nothing: its two lines are nothing and the
  // record of another token.
  lemma NewlineThatSaves()
    ensures Lines(Line(Record("a,\nb", 7)) + "\n") == ["a,", "b,7"]
    ensures Parse("a,") == Skipped && Parse("b,7") == Parsed(Record("b", 7))
  {
    hide Parse, Find, Lines, ToString;
    assert "a,\nb" == "a," + "\n" + "b" && "a," == "a" + ",";
    LinesOfRecord(Record("a,\nb", 7));
    TwoPieces("a,", "b");
    LineRoundTrip(Record("b", 7));
    assert Line(Record("b", 7)) == "b,7" by { OneDigit(7); }
    NothingAfterComma("a");
  }

  lemma OneDigit(d: nat)
    requires d < 10
    ensures ToString(d) == [DigitChar(d)]
  {
  }

  lemma NothingAfterComma(a: string)
    requires ',' !in a
    ensures Parse(a + ",") == Skipped
  {
    FindIsFirst(a + ",", ',', |a|);
  }

  lemma TwoPieces(a: string, b: string)
    requires '\n' !in a && '\n' !in b
    ensures Pieces(a + "\n" + b) == [a, b]
  {
    hide Lines;
    var text := a + "\n" + b + "\n";
    assert text[..|a|] == a && text[|a|] == '\n' && text[|a| + 1..] == b + "\n";
    FirstLine(text, |a|);
    OnePiece(b);
  }

  // And one that throws although a number can be read after its first comma.
  lemma NewlineThatThrows()
    ensures IsUnreadable("a,5\nc,b") && MistakenExpiry("a,5\nc,b") == Converted(5)
  {
    hide Find, Stoll, Pieces;
    var token := "a,5\nc,b";
    TwoPieces("a,5", "c,b");
    assert "a,5" + "\n" + "c,b" == token;
    assert "c" + "," + "b" == "c,b";
    AfterComma("c", "b");
    NoDigitsInB();
    var pieces := Pieces(token);
    assert IsUnreadablePiece(pieces[1], 1 == |pieces| - 1);
    FirstNumber(token);
  }

  lemma FirstNumber(token: string)
    requires token == "a,5\nc,b"
    ensures ',' in token && MistakenExpiry(token) == Converted(5)
  {
    hide Stoll;
    assert token[1] == ',' && token[..1] == "a";
    FindIsFirst(token, ',', 1);
    var rest := token[2..];
    assert rest[1] == '\n' && rest[..1] == "5";
    FirstLineIs(rest, 1);
    OneDigit(5);
    StollOfToString(5);
  }
}
