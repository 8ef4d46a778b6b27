/** The credentials file `IDs.txt`: the template the program writes when
    the file is missing, the check that refuses the template's placeholder
    values, and the line parser that reads the client id, secret, redirect
    URI and websocket port back out of it. File access is left out: the
    model works on the file's text and its `readlines()`. */
module Credentials {
  import opened Text
  import opened Optional

  /** The four settings, the port as its decimal text. */
  datatype Settings = Settings(clientId: string, secret: string, redirect: string, port: string)

  const Defaults := Settings("ClientIdHere", "SecretHere", "http://localhost:8000/callback", "6969")

  /** The template's comment lines, word by word. */
  const Comment0Words: seq<string> := ["#", "You'll", "find", "your", "Client", "ID", "and", "Client",
    "Secret", "in", "your", "Spotify", "application", "developer", "panel", "under", "Settings."]
  const Comment1Words: seq<string> := ["#", "Under", "the", "same", "settings", "menu", "you'll", "find",
    "a", "\"Redirect\"", "section,", "which", "lets", "you", "hook", "up", "a", "link", "for", "the",
    "API", "to", "redirect", "you", "to", "once", "it's", "connected"]
  const Comment2Words: seq<string> := ["#", "The", "port", "ID", "allows", "you", "to", "choose", "what",
    "port", "this", "websocket", "will", "connect", "through"]
  const Comment3Words: seq<string> := ["#", "You", "MUST", "have", "the", "same", "port", "ID", "hooked",
    "up", "in", "Resonite", "as", "you", "put", "in", "here!"]

  /** A comment line: its words joined by spaces, and a newline. */
  function CommentLine(words: seq<string>): string {
    Join(words, ' ') + "\n"
  }

  /** The four comment lines of the template. */
  function Comments(): seq<string> {
    [CommentLine(Comment0Words), CommentLine(Comment1Words), CommentLine(Comment2Words), CommentLine(Comment3Words)]
  }

  /** The lines of a settings file in the template's layout, with the given
      comment lines and settings; the last line has no newline. */
  function FileLines(comments: seq<string>, s: Settings): seq<string>
    requires |comments| == 4
  {
    [ comments[0],
      "Client ID: " + s.clientId + "\n",
      "Client Secret: " + s.secret + "\n",
      "\n",
      comments[1],
      "Redirect URI: " + s.redirect + "\n",
      "\n",
      comments[2],
      comments[3],
      "Port ID: " + s.port ]
  }

  /** The template with the four settings filled in. */
  function TemplateLines(s: Settings): seq<string> {
    FileLines(Comments(), s)
  }

  /** Four comment lines, each a line of its own. */
  predicate CommentsOk(comments: seq<string>) {
    |comments| == 4
    && Terminated(comments[0]) && Terminated(comments[1])
    && Terminated(comments[2]) && Terminated(comments[3])
  }

  /** One line as `readlines()` returns it when more follow. */
  predicate Terminated(l: string) {
    |l| > 0 && l[|l| - 1] == '\n' && NoChar(l[..|l| - 1], '\n')
  }

  /** Joining newline-free words with spaces gives a newline-free text. */
  lemma {:induction false} JoinNoNewline(ws: seq<string>)
    requires forall k :: 0 <= k < |ws| ==> NoChar(ws[k], '\n')
    ensures NoChar(Join(ws, ' '), '\n')
    decreases |ws|
  {
    if |ws| > 1 {
      JoinNoNewline(ws[1..]);
    }
  }

  /** A comment line of newline-free words is one line. */
  lemma CommentIsLine(words: seq<string>)
    requires forall k :: 0 <= k < |words| ==> NoChar(words[k], '\n')
    ensures Terminated(CommentLine(words))
  {
    JoinNoNewline(words);
    assert CommentLine(words)[..|CommentLine(words)| - 1] == Join(words, ' ');
  }

  /** The template's comment lines are lines. */
  lemma CommentsTerminated()
    ensures CommentsOk(Comments())
  {
    Comment0Line();
    Comment1Line();
    Comment2Line();
    Comment3Line();
  }

  lemma Comment0Line()
    ensures Terminated(CommentLine(Comment0Words))
  {
    assert forall k :: 0 <= k < |Comment0Words| ==> NoChar(Comment0Words[k], '\n');
    CommentIsLine(Comment0Words);
  }

  lemma Comment1Line()
    ensures Terminated(CommentLine(Comment1Words))
  {
    assert forall k :: 0 <= k < |Comment1Words| ==> NoChar(Comment1Words[k], '\n');
    CommentIsLine(Comment1Words);
  }

  lemma Comment2Line()
    ensures Terminated(CommentLine(Comment2Words))
  {
    assert forall k :: 0 <= k < |Comment2Words| ==> NoChar(Comment2Words[k], '\n');
    CommentIsLine(Comment2Words);
  }

  lemma Comment3Line()
    ensures Terminated(CommentLine(Comment3Words))
  {
    assert forall k :: 0 <= k < |Comment3Words| ==> NoChar(Comment3Words[k], '\n');
    CommentIsLine(Comment3Words);
  }

  /** The file `check_ids_file` writes. */
  function Template(): string {
    Concat(TemplateLines(Defaults))
  }

  /** `check_ids_file` refuses a file that still holds a placeholder. */
  predicate HasPlaceholder(content: string) {
    Contains(content, "ClientIdHere") || Contains(content, "SecretHere")
  }

  /** The word `connect_to_spotify` takes from each settings line. */
  const ValueWord := 2

  /** One setting: the third space-separated word of the line, without a
      trailing newline, with every `<` and `>` removed. `None` where Python
      raises an `IndexError`. */
  function Field(line: string): (r: Option<string>)
    ensures r.None? <==> |Split(line, ' ')| <= ValueWord
    ensures r.Some? ==> NoChar(r.value, ' ') && NoChar(r.value, '<') && NoChar(r.value, '>')
  {
    var words := Split(line, ' ');
    if |words| <= ValueWord then None
    else
      var w := RemoveSuffix(words[ValueWord], "\n");
      var v := Replace(Replace(w, "<", ""), ">", "");
      NoCharKept(w, ' ');
      BracketsRemoved(w);
      Some(v)
  }

  /** After removing `<` and then `>`, neither is left. */
  lemma BracketsRemoved(s: string)
    ensures NoChar(Replace(Replace(s, "<", ""), ">", ""), '<')
    ensures NoChar(Replace(Replace(s, "<", ""), ">", ""), '>')
  {
    ReplaceRemovesChar(s, '<');
    ReplaceKeepsNoChar(Replace(s, "<", ""), ">", '<');
    ReplaceRemovesChar(Replace(s, "<", ""), '>');
  }

  /** Removing every `c` leaves no `c`. */
  lemma {:induction false} ReplaceRemovesChar(s: string, c: char)
    ensures NoChar(Replace(s, [c], ""), c)
    decreases |s|
  {
    if |s| >= 1 {
      ReplaceRemovesChar(s[1..], c);
      if s[..1] == [c] {
        assert Replace(s, [c], "") == "" + Replace(s[1..], [c], "");
      } else {
        assert s[0] != c;
        assert Replace(s, [c], "") == [s[0]] + Replace(s[1..], [c], "");
      }
    }
  }

  /** Removing `<` and `>` adds no character. */
  lemma NoCharKept(s: string, c: char)
    requires NoChar(s, c) && c != '<' && c != '>'
    ensures NoChar(Replace(Replace(s, "<", ""), ">", ""), c)
  {
    ReplaceKeepsNoChar(s, "<", c);
    ReplaceKeepsNoChar(Replace(s, "<", ""), ">", c);
  }

  lemma {:induction false} ReplaceKeepsNoChar(s: string, pat: string, c: char)
    requires |pat| > 0 && NoChar(s, c)
    ensures NoChar(Replace(s, pat, ""), c)
    decreases |s|
  {
    if |s| >= |pat| {
      if s[..|pat|] == pat {
        ReplaceKeepsNoChar(s[|pat|..], pat, c);
        assert Replace(s, pat, "") == "" + Replace(s[|pat|..], pat, "");
      } else {
        ReplaceKeepsNoChar(s[1..], pat, c);
      }
    }
  }

  /** How reading the settings ends. */
  datatype Outcome =
    | Connected(settings: Settings, portNumber: nat)
    | Malformed          // a missing line or word: `IndexError`
    | BadPortNumber      // `int()` refuses the port text: `ValueError`
    | PortInRedirect     // the port's text occurs in the redirect URI

  /** `int()` of the port text: decimal digits only. */
  function ParsePort(s: string): (r: Option<nat>)
    ensures r.Some? <==> |s| > 0 && AllDigits(s)
    ensures r.Some? ==> r.value == DecimalValue(s)
  {
    if |s| > 0 && AllDigits(s) then Some(DecimalValue(s)) else None
  }

  /** The four fields, read from lines 1, 2, 5 and 9. */
  function RawSettings(lines: seq<string>): (r: Option<Settings>)
    ensures r.Some? <==> (|lines| >= 10 && Field(lines[1]).Some? && Field(lines[2]).Some?
      && Field(lines[5]).Some? && Field(lines[9]).Some?)
    ensures r.Some? ==> (Field(lines[1]) == Some(r.value.clientId) && Field(lines[2]) == Some(r.value.secret)
      && Field(lines[5]) == Some(r.value.redirect) && Field(lines[9]) == Some(r.value.port))
  {
    if |lines| < 10 then None
    else
      var id, secret, uri, port := Field(lines[1]), Field(lines[2]), Field(lines[5]), Field(lines[9]);
      if id.None? || secret.None? || uri.None? || port.None? then None
      else Some(Settings(id.value, secret.value, uri.value, port.value))
  }

  /** `connect_to_spotify`'s reading of the settings from the file's lines:
      malformed lines, then the port number, then the port check. */
  function ReadSettings(lines: seq<string>): (o: Outcome)
    ensures o == Malformed <==> RawSettings(lines).None?
    ensures o == BadPortNumber <==> RawSettings(lines).Some? && ParsePort(RawSettings(lines).value.port).None?
    ensures o == PortInRedirect <==> (RawSettings(lines).Some? && ParsePort(RawSettings(lines).value.port).Some?
      && Contains(RawSettings(lines).value.redirect, RawSettings(lines).value.port))
    ensures o.Connected? ==> (o.settings == RawSettings(lines).value
      && !Contains(o.settings.redirect, o.settings.port)
      && AllDigits(o.settings.port) && o.portNumber == DecimalValue(o.settings.port))
  {
    match RawSettings(lines)
    case None => Malformed
    case Some(s) =>
      match ParsePort(s.port)
      case None => BadPortNumber
      case Some(n) => if Contains(s.redirect, s.port) then PortInRedirect else Connected(s, n)
  }

  /** A value that survives the file format: no space, newline, `<` or `>`. */
  predicate Plain(v: string) {
    NoChar(v, ' ') && NoChar(v, '\n') && NoChar(v, '<') && NoChar(v, '>')
  }

  predicate PlainSettings(s: Settings) {
    Plain(s.clientId) && Plain(s.secret) && Plain(s.redirect) && Plain(s.port)
  }

  /** A line `w1 w2 v`, with or without a final newline, gives back `v`. */
  lemma FieldOfLine(w1: string, w2: string, v: string, end: string)
    requires NoChar(w1, ' ') && NoChar(w2, ' ') && Plain(v)
    requires end == "\n" || end == ""
    ensures Field((w1 + " " + w2 + " ") + v + end) == Some(v)
  {
    var line := (w1 + " " + w2 + " ") + v + end;
    var tail := v + end;
    assert NoChar(tail, ' ');
    assert line == w1 + [' '] + (w2 + [' '] + tail);
    SplitPrefix(w1, w2 + [' '] + tail, ' ');
    SplitPrefix(w2, tail, ' ');
    SplitNoSep(tail, ' ');
    assert Split(line, ' ') == [w1, w2, tail];
    if end == "\n" {
      assert RemoveSuffix(tail, "\n") == v;
    } else {
      assert tail == v;
      if |v| > 0 {
        assert v[|v| - 1] != '\n';
        assert v[|v| - 1..] != "\n";
      }
      assert RemoveSuffix(tail, "\n") == v;
    }
    ReplaceIdentity(v, "<", "");
    ReplaceIdentity(v, ">", "");
  }

  /** A line holding a value and ending in a newline is one line. */
  lemma ValueLineIsLine(prefix: string, v: string)
    requires NoChar(prefix, '\n') && NoChar(v, '\n')
    ensures Terminated(prefix + v + "\n")
  {
    var l := prefix + v + "\n";
    assert l[..|l| - 1] == prefix + v;
  }

  /** A file in the template's layout is what `readlines()` returns for its text. */
  lemma FileWellFormed(comments: seq<string>, s: Settings)
    requires CommentsOk(comments)
    requires PlainSettings(s)
    ensures WellFormedLines(FileLines(comments, s))
  {
    var ls := FileLines(comments, s);
    ValueLineIsLine("Client ID: ", s.clientId);
    ValueLineIsLine("Client Secret: ", s.secret);
    ValueLineIsLine("Redirect URI: ", s.redirect);
    assert Terminated("\n");
    forall k | 0 <= k < |ls| - 1
      ensures Terminated(ls[k])
    {
      if k == 0 { assert ls[k] == comments[0]; }
      else if k == 4 { assert ls[k] == comments[1]; }
      else if k == 7 { assert ls[k] == comments[2]; }
      else if k == 8 { assert ls[k] == comments[3]; }
    }
    var last := "Port ID: " + s.port;
    assert NoChar(last, '\n');
    assert NoChar(last[..|last| - 1], '\n');
  }

  /** A value written between angle brackets, as in `Client ID: <abc>`,
      is read without them. */
  lemma BracketedField(w1: string, w2: string, v: string, end: string)
    requires NoChar(w1, ' ') && NoChar(w2, ' ') && Plain(v)
    requires end == "\n" || end == ""
    ensures Field((w1 + " " + w2 + " ") + ("<" + v + ">") + end) == Some(v)
  {
    var b := "<" + v + ">";
    var line := (w1 + " " + w2 + " ") + b + end;
    var tail := b + end;
    assert NoChar(tail, ' ');
    assert line == w1 + [' '] + (w2 + [' '] + tail);
    SplitPrefix(w1, w2 + [' '] + tail, ' ');
    SplitPrefix(w2, tail, ' ');
    SplitNoSep(tail, ' ');
    assert Split(line, ' ') == [w1, w2, tail];
    if end == "\n" {
      assert RemoveSuffix(tail, "\n") == b;
    } else {
      assert tail == b;
      assert b[|b| - 1..] != "\n";
      assert RemoveSuffix(tail, "\n") == b;
    }
    StripBrackets(v);
  }

  /** Removing `<` and `>` from `<v>` gives `v`. */
  lemma StripBrackets(v: string)
    requires NoChar(v, '<') && NoChar(v, '>')
    ensures Replace(Replace("<" + v + ">", "<", ""), ">", "") == v
  {
    var b := "<" + v + ">";
    assert b[..1] == "<" && b[1..] == v + ">";
    assert Replace(b, "<", "") == "" + Replace(v + ">", "<", "");
    assert NoChar(v + ">", '<');
    ReplaceIdentity(v + ">", "<", "");
    assert Replace(b, "<", "") == v + ">";
    ReplaceSkip(v, ">", ">", "");
    var gt := ">";
    assert gt[..1] == gt && gt[1..] == [];
    assert Replace(gt, gt, "") == "" + Replace([], gt, "");
    assert Replace(gt, gt, "") == "";
    assert v + "" == v;
  }

  /** The client id line of the template's layout gives back its value. */
  lemma ClientIdField(v: string)
    requires Plain(v)
    ensures Field("Client ID: " + v + "\n") == Some(v)
  {
    FieldOfLine("Client", "ID:", v, "\n");
    assert "Client" + " " + "ID:" + " " == "Client ID: ";
  }

  /** The client secret line gives back its value. */
  lemma SecretField(v: string)
    requires Plain(v)
    ensures Field("Client Secret: " + v + "\n") == Some(v)
  {
    FieldOfLine("Client", "Secret:", v, "\n");
    assert "Client" + " " + "Secret:" + " " == "Client Secret: ";
  }

  /** The redirect URI line gives back its value. */
  lemma RedirectField(v: string)
    requires Plain(v)
    ensures Field("Redirect URI: " + v + "\n") == Some(v)
  {
    FieldOfLine("Redirect", "URI:", v, "\n");
    assert "Redirect" + " " + "URI:" + " " == "Redirect URI: ";
  }

  /** The last line, the port, has no line break and gives back its value. */
  lemma PortField(v: string)
    requires Plain(v)
    ensures Field("Port ID: " + v) == Some(v)
  {
    FieldOfLine("Port", "ID:", v, "");
    assert "Port" + " " + "ID:" + " " == "Port ID: ";
    assert ("Port ID: " + v) + "" == "Port ID: " + v;
  }

  /** Lines whose four settings lines give back the four values. */
  lemma RawSettingsOf(ls: seq<string>, s: Settings)
    requires |ls| >= 10
    requires Field(ls[1]) == Some(s.clientId) && Field(ls[2]) == Some(s.secret)
    requires Field(ls[5]) == Some(s.redirect) && Field(ls[9]) == Some(s.port)
    ensures RawSettings(ls) == Some(s)
  {
  }

  /** The four settings lines of such a file give back the settings. */
  lemma FileFields(comments: seq<string>, s: Settings)
    requires |comments| == 4 && PlainSettings(s)
    ensures RawSettings(FileLines(comments, s)) == Some(s)
  {
    var ls := FileLines(comments, s);
    assert ls[1] == "Client ID: " + s.clientId + "\n";
    assert ls[2] == "Client Secret: " + s.secret + "\n";
    assert ls[5] == "Redirect URI: " + s.redirect + "\n";
    assert ls[9] == "Port ID: " + s.port;
    ClientIdField(s.clientId);
    SecretField(s.secret);
    RedirectField(s.redirect);
    PortField(s.port);
    RawSettingsOf(ls, s);
  }

  /** Writing plain settings in the template's layout and reading the file
      back gives the settings, unless the port's text occurs in the
      redirect URI. */
  lemma FileRoundTrip(comments: seq<string>, s: Settings)
    requires CommentsOk(comments)
    requires PlainSettings(s) && |s.port| > 0 && AllDigits(s.port)
    ensures !Contains(s.redirect, s.port) ==>
      ReadSettings(ReadLines(Concat(FileLines(comments, s)))) == Connected(s, DecimalValue(s.port))
    ensures Contains(s.redirect, s.port) ==>
      ReadSettings(ReadLines(Concat(FileLines(comments, s)))) == PortInRedirect
  {
    var ls := FileLines(comments, s);
    FileWellFormed(comments, s);
    ReadLinesConcat(ls);
    FileFields(comments, s);
  }

  /** The template filled with plain settings reads back the same way. */
  lemma TemplateRoundTrip(s: Settings)
    requires PlainSettings(s) && |s.port| > 0 && AllDigits(s.port)
    ensures !Contains(s.redirect, s.port) ==>
      ReadSettings(ReadLines(Concat(TemplateLines(s)))) == Connected(s, DecimalValue(s.port))
    ensures Contains(s.redirect, s.port) ==>
      ReadSettings(ReadLines(Concat(TemplateLines(s)))) == PortInRedirect
  {
    CommentsTerminated();
    FileRoundTrip(Comments(), s);
  }

  /** The placeholder settings survive the file format. */
  lemma DefaultsPlain()
    ensures PlainSettings(Defaults)
  {
    assert Plain("ClientIdHere");
    assert Plain("SecretHere");
    assert Plain("http://localhost:8000/callback");
    assert Plain("6969");
  }

  /** The default port `6969` is a number. */
  lemma DefaultPortNumber()
    ensures |Defaults.port| > 0 && AllDigits(Defaults.port) && DecimalValue(Defaults.port) == 6969
  {
    assert DecimalValue("6") == 6;
    assert DecimalValue("69") == 69 by { assert "69"[..1] == "6"; }
    assert DecimalValue("696") == 696 by { assert "696"[..2] == "69"; }
    assert "6969"[..3] == "696";
  }

  /** A text cannot occur where its first character does not. */
  lemma AbsentFirstChar(s: string, sub: string)
    requires |sub| > 0 && NoChar(s, sub[0])
    ensures !Contains(s, sub)
  {
    ContainsIff(s, sub);
    forall i | 0 <= i && i + |sub| <= |s|
      ensures !OccursAt(s, sub, i)
    {
      assert s[i..i + |sub|][0] == s[i] != sub[0];
    }
  }

  /** The default port is not part of the default redirect URI: it holds
      no `6`. */
  lemma DefaultPortNotInRedirect()
    ensures !Contains(Defaults.redirect, Defaults.port)
  {
    assert NoChar("http://localhost:8000/callback", '6');
    AbsentFirstChar(Defaults.redirect, Defaults.port);
  }

  /** A file whose second line carries the client id contains it. */
  lemma ClientIdInFile(comments: seq<string>, s: Settings)
    requires |comments| == 4
    ensures Contains(Concat(FileLines(comments, s)), s.clientId)
  {
    var ls := FileLines(comments, s);
    ContainsInside("Client ID: ", s.clientId, "\n", s.clientId);
    assert Concat(ls) == ls[0] + ls[1] + Concat(ls[2..]);
    ContainsInside(ls[0], ls[1], Concat(ls[2..]), s.clientId);
  }

  /** The template the program writes reads back as its placeholder
      settings, and the placeholder check refuses it. */
  lemma TemplateIsRefused()
    ensures ReadSettings(ReadLines(Template())) == Connected(Defaults, 6969)
    ensures HasPlaceholder(Template())
  {
    DefaultsPlain();
    DefaultPortNumber();
    DefaultPortNotInRedirect();
    TemplateRoundTrip(Defaults);
    ClientIdInFile(Comments(), Defaults);
  }

  /** The callback's own port, `8000`, occurs in the default redirect URI. */
  lemma CallbackPortInRedirect()
    ensures Contains(Defaults.redirect, "8000")
  {
    ContainsInside("http://localhost:", "8000", "/callback", "8000");
    assert "http://localhost:" + "8000" + "/callback" == Defaults.redirect;
  }

  /** A port whose text occurs in the redirect URI is refused: the
      template with the callback's own port 8000. */
  lemma CallbackPortRefused()
    ensures ReadSettings(ReadLines(Concat(TemplateLines(Defaults.(port := "8000"))))) == PortInRedirect
  {
    var s := Defaults.(port := "8000");
    DefaultsPlain();
    assert Plain("8000");
    CallbackPortInRedirect();
    TemplateRoundTrip(s);
  }
}
