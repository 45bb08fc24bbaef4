/** The text form of a BMT task list: what is printed, and what parsing the text restores. */
module Bmt {

  /** The four places and the configuration are shared by the whole list. */
  datatype TaskList = TaskList(initial: string, source: string, destination: string, configuration: string, objects: seq<string>, finalPlace: string)

  predicate Delimiter(c: char) { c == '<' || c == '>' || c == ',' || c == '(' || c == ')' }

  /** A name that has no space and no delimiter. */
  predicate Clean(s: string) { forall i :: 0 <= i < |s| ==> s[i] != ' ' && !Delimiter(s[i]) }

  ghost predicate AllClean(ss: seq<string>) { forall i :: 0 <= i < |ss| ==> Clean(ss[i]) }

  // ---- Printing

  /** The names with a comma between any two. */
  function Join(names: seq<string>): string
    requires names != []
  {
    if |names| == 1 then names[0] else Join(names[..|names| - 1]) + "," + names[|names| - 1]
  }

  function Print(t: TaskList): string {
    "BMT<" +
    (if t.objects == [] then ""
     else t.initial + "," + t.source + "," + t.destination + "," + t.configuration + "(" + Join(t.objects) + ")" + "," + t.finalPlace)
    + ">"
  }

  // ---- Parsing

  function WithoutSpaces(s: string): string {
    if s == "" then "" else WithoutSpaces(s[..|s| - 1]) + if s[|s| - 1] == ' ' then "" else [s[|s| - 1]]
  }

  /** The pieces between delimiters; there is always one. */
  function Pieces(s: string): (r: seq<string>)
    ensures r != []
  {
    if s == "" then [""]
    else
      var r, c, n := Pieces(s[..|s| - 1]), s[|s| - 1], |Pieces(s[..|s| - 1])| - 1;
      if Delimiter(c) then r + [""] else r[n := r[n] + [c]]
  }

  /** `String.split` leaves out empty pieces at the end. */
  function Trimmed(r: seq<string>): seq<string> {
    if r != [] && r[|r| - 1] == "" then Trimmed(r[..|r| - 1]) else r
  }

  function Tokens(s: string): seq<string> { Trimmed(Pieces(WithoutSpaces(s))) }

  /** What `parseTaskSpecString` makes of the tokens: with too few of them there is no task and the shared fields stay. */
  function FromTokens(tokens: seq<string>, before: TaskList): TaskList {
    if |tokens| <= 7 then before.(objects := [])
    else TaskList(tokens[1], tokens[2], tokens[3], tokens[4], tokens[5..|tokens| - 2], tokens[|tokens| - 1])
  }

  function Parse(s: string, before: TaskList): TaskList { FromTokens(Tokens(s), before) }

  // ---- Round trip

  /** What a printed list has to be for the text to restore it. */
  predicate Printable(t: TaskList) {
    && Clean(t.initial) && Clean(t.source) && Clean(t.destination) && Clean(t.configuration) && Clean(t.finalPlace)
    && (forall i :: 0 <= i < |t.objects| ==> Clean(t.objects[i]))
    && t.finalPlace != ""
  }

  lemma {:induction false} WithoutSpacesConcat(a: string, b: string)
    ensures WithoutSpaces(a + b) == WithoutSpaces(a) + WithoutSpaces(b)
  {
    if b == "" {
      assert a + b == a;
    } else {
      var n := |b| - 1;
      WithoutSpacesConcat(a, b[..n]);
      assert (a + b)[..|a + b| - 1] == a + b[..n];
      assert (a + b)[|a + b| - 1] == b[n];
    }
  }

  lemma {:induction false} NoSpaces(s: string)
    requires forall i :: 0 <= i < |s| ==> s[i] != ' '
    ensures WithoutSpaces(s) == s
  {
    if s != "" { NoSpaces(s[..|s| - 1]); }
  }

  /** A clean name goes onto the last piece. */
  lemma {:induction false} PiecesName(s: string, name: string)
    requires Clean(name)
    ensures var r := Pieces(s); Pieces(s + name) == r[|r| - 1 := r[|r| - 1] + name]
  {
    if name == "" {
      assert s + name == s;
      assert Pieces(s)[|Pieces(s)| - 1] + "" == Pieces(s)[|Pieces(s)| - 1];
    } else {
      var n, t := |name| - 1, s + name;
      PiecesName(s, name[..n]);
      assert t[..|t| - 1] == s + name[..n] && t[|t| - 1] == name[n];
      var last := Pieces(s)[|Pieces(s)| - 1];
      assert (last + name[..n]) + [name[n]] == last + name;
    }
  }

  lemma PiecesDelimiter(s: string, c: char)
    requires Delimiter(c)
    ensures Pieces(s + [c]) == Pieces(s) + [""]
  {
    assert (s + [c])[..|s|] == s;
  }

  /** A delimiter and a clean name are one more piece. */
  lemma PiecesMore(s: string, c: char, name: string)
    requires Delimiter(c) && Clean(name)
    ensures Pieces(s + [c] + name) == Pieces(s) + [name]
  {
    PiecesDelimiter(s, c);
    PiecesName(s + [c], name);
    assert "" + name == name;
  }

  lemma JoinMore(s: string, names: seq<string>)
    requires |names| > 1
    ensures var n := |names| - 1; s + "(" + Join(names) == (s + "(" + Join(names[..n])) + "," + names[n]
  {
  }

  /** The objects, after an opening bracket. */
  lemma {:induction false} PiecesObjects(s: string, names: seq<string>)
    requires names != [] && AllClean(names)
    ensures Pieces(s + "(" + Join(names)) == Pieces(s) + names
  {
    var n := |names| - 1;
    if n == 0 {
      PiecesMore(s, '(', names[0]);
      assert names == [names[0]];
    } else {
      var front := names[..n];
      PiecesObjects(s, front);
      PiecesMore(s + "(" + Join(front), ',', names[n]);
      JoinMore(s, names);
      assert names == front + [names[n]];
    }
  }

  /** The printed text up to the configuration. */
  function Head(t: TaskList): string {
    "BMT" + "<" + t.initial + "," + t.source + "," + t.destination + "," + t.configuration
  }

  lemma PiecesHead(t: TaskList)
    requires Clean(t.initial) && Clean(t.source) && Clean(t.destination) && Clean(t.configuration)
    ensures Pieces(Head(t)) == ["BMT", t.initial, t.source, t.destination, t.configuration]
  {
    PiecesName("", "BMT");
    assert "" + "BMT" == "BMT";
    PiecesMore("BMT", '<', t.initial);
    PiecesMore("BMT" + "<" + t.initial, ',', t.source);
    PiecesMore("BMT" + "<" + t.initial + "," + t.source, ',', t.destination);
    PiecesMore("BMT" + "<" + t.initial + "," + t.source + "," + t.destination, ',', t.configuration);
  }

  lemma PrintedParts(t: TaskList)
    requires t.objects != []
    ensures Print(t) == (Head(t) + "(" + Join(t.objects)) + ")" + "" + "," + t.finalPlace + ">" + ""
  {
    var rest := t.source + "," + t.destination + "," + t.configuration;
    assert "BMT<" + (t.initial + ",") == "BMT" + "<" + t.initial + ",";
    assert "BMT<" + (t.initial + "," + t.source + "," + t.destination + "," + t.configuration) == Head(t);
  }

  lemma PiecesPrinted(t: TaskList)
    requires Printable(t) && t.objects != []
    ensures Pieces(Print(t)) ==
      ["BMT", t.initial, t.source, t.destination, t.configuration] + t.objects + ["", t.finalPlace, ""]
  {
    PrintedParts(t);
    PiecesHead(t);
    PiecesObjects(Head(t), t.objects);
    var s := Head(t) + "(" + Join(t.objects);
    PiecesMore(s, ')', "");
    PiecesMore(s + ")" + "", ',', t.finalPlace);
    PiecesMore(s + ")" + "" + "," + t.finalPlace, '>', "");
  }

  /** A space would show in some piece. */
  lemma {:induction false} SpacesShow(s: string)
    requires AllClean(Pieces(s))
    ensures forall i :: 0 <= i < |s| ==> s[i] != ' '
  {
    if s != "" {
      var n, r, t := |s| - 1, Pieces(s[..|s| - 1]), Pieces(s);
      if Delimiter(s[n]) {
        forall k | 0 <= k < |r| ensures Clean(r[k]) { assert t[k] == r[k]; }
      } else {
        forall k | 0 <= k < |r| ensures Clean(r[k]) {
          assert Clean(t[k]);
          assert k == |r| - 1 ==> forall i :: 0 <= i < |r[k]| ==> r[k][i] == t[k][i];
        }
        assert Clean(t[|r| - 1]) && t[|r| - 1][|r[|r| - 1]|] == s[n];
      }
      SpacesShow(s[..n]);
    }
  }

  lemma TokensPrinted(t: TaskList)
    requires Printable(t) && t.objects != []
    ensures Tokens(Print(t)) == ["BMT", t.initial, t.source, t.destination, t.configuration] + t.objects + ["", t.finalPlace]
  {
    var head := ["BMT", t.initial, t.source, t.destination, t.configuration];
    var r, q := head + t.objects + ["", t.finalPlace, ""], head + t.objects + ["", t.finalPlace];
    PiecesPrinted(t);
    PrintedIsClean(t);
    SpacesShow(Print(t));
    NoSpaces(Print(t));
    assert r == q + [""];
    TrimLast(q);
  }

  lemma PrintedIsClean(t: TaskList)
    requires Printable(t)
    ensures AllClean(["BMT", t.initial, t.source, t.destination, t.configuration] + t.objects + ["", t.finalPlace, ""])
  {
    var head := ["BMT", t.initial, t.source, t.destination, t.configuration];
    assert AllClean(head) && AllClean(["", t.finalPlace, ""]);
    CleanConcat(head, t.objects);
    CleanConcat(head + t.objects, ["", t.finalPlace, ""]);
  }

  lemma CleanConcat(a: seq<string>, b: seq<string>)
    requires AllClean(a) && AllClean(b)
    ensures AllClean(a + b)
  {
  }

  lemma TrimLast(q: seq<string>)
    requires q != [] && q[|q| - 1] != ""
    ensures Trimmed(q + [""]) == q
  {
    assert (q + [""])[..|q|] == q;
  }

  lemma {:induction false} PiecesAreClean(s: string)
    ensures AllClean(Pieces(WithoutSpaces(s)))
  {
    if s != "" {
      PiecesAreClean(s[..|s| - 1]);
      var w := WithoutSpaces(s[..|s| - 1]);
      if s[|s| - 1] == ' ' {
        assert w + "" == w;
      } else {
        assert (w + [s[|s| - 1]])[..|w|] == w;
      }
    }
  }

  lemma {:induction false} TrimmedFacts(r: seq<string>)
    ensures Trimmed(r) <= r
    ensures Trimmed(r) != [] ==> Trimmed(r)[|Trimmed(r)| - 1] != ""
  {
    if r != [] && r[|r| - 1] == "" { TrimmedFacts(r[..|r| - 1]); }
  }

  /** Whatever the text, no name that is read has a space or a delimiter, and the last one is not empty. */
  lemma ReadIsPrintable(s: string, before: TaskList)
    requires Parse(s, before).objects != []
    ensures Printable(Parse(s, before))
  {
    var tokens := Tokens(s);
    PiecesAreClean(s);
    TrimmedFacts(Pieces(WithoutSpaces(s)));
    forall i | 0 <= i < |tokens| ensures Clean(tokens[i]) {
      assert tokens[i] == Pieces(WithoutSpaces(s))[i];
    }
  }

  /** For every list with a task, the text restores places, configuration and objects exactly when the names are printable. */
  lemma RoundTrip(t: TaskList, before: TaskList)
    requires t.objects != []
    ensures Parse(Print(t), before) == t <==> Printable(t)
  {
    if Printable(t) {
      TokensPrinted(t);
      var tokens := Tokens(Print(t));
      assert tokens[5..|tokens| - 2] == t.objects;
    } else if Parse(Print(t), before) == t {
      ReadIsPrintable(Print(t), before);
    }
  }

  /** An empty list is restored as such; the shared fields are not printed and stay as they were. */
  lemma RoundTripEmpty(t: TaskList, before: TaskList)
    requires t.objects == []
    ensures Parse(Print(t), before) == before.(objects := [])
  {
    EmptyPieces(Print(t));
    TrimmedFacts(Pieces(Print(t)));
  }

  lemma EmptyPieces(s: string)
    requires s == "BMT<>"
    ensures WithoutSpaces(s) == s && Pieces(s) == ["BMT", "", ""]
  {
    assert s == "BMT" + ['<'] + "" + ['>'] + "";
    NoSpaces(s);
    PiecesName("", "BMT");
    assert "" + "BMT" == "BMT" && Pieces("BMT") == ["BMT"];
    PiecesMore("BMT", '<', "");
    PiecesMore("BMT" + ['<'] + "", '>', "");
    assert Pieces(s) == ["BMT", "", ""];
  }

  // ---- Which text it is

  /** The delimiters of the text, in order. */
  function Marks(s: string): string {
    if s == "" then "" else Marks(s[..|s| - 1]) + if Delimiter(s[|s| - 1]) then [s[|s| - 1]] else ""
  }

  function Commas(n: nat): string { if n == 0 then "" else Commas(n - 1) + "," }

  lemma {:induction false} MarksConcat(a: string, b: string)
    ensures Marks(a + b) == Marks(a) + Marks(b)
  {
    if b == "" {
      assert a + b == a;
    } else {
      var n := |b| - 1;
      MarksConcat(a, b[..n]);
      assert (a + b)[..|a + b| - 1] == a + b[..n] && (a + b)[|a + b| - 1] == b[n];
    }
  }

  lemma {:induction false} NoMarks(name: string)
    requires Clean(name)
    ensures Marks(name) == ""
  {
    if name != "" { NoMarks(name[..|name| - 1]); }
  }

  /** A delimiter and a clean name add one mark. */
  lemma MarksMore(s: string, c: char, name: string)
    requires Delimiter(c) && Clean(name)
    ensures Marks(s + [c] + name) == Marks(s) + [c]
  {
    MarksConcat(s + [c], name);
    MarksConcat(s, [c]);
    NoMarks(name);
    assert Marks([c]) == Marks("") + [c];
  }

  lemma CommaMore(s: string, n: nat)
    ensures s + Commas(n) + "," == s + Commas(n + 1)
  {
  }

  lemma {:induction false} MarksObjects(s: string, names: seq<string>)
    requires names != [] && AllClean(names)
    ensures Marks(s + "(" + Join(names)) == Marks(s) + "(" + Commas(|names| - 1)
  {
    var n := |names| - 1;
    if n == 0 {
      MarksMore(s, '(', names[0]);
    } else {
      var front := names[..n];
      MarksObjects(s, front);
      MarksMore(s + "(" + Join(front), ',', names[n]);
      JoinMore(s, names);
      CommaMore(Marks(s) + "(", n - 1);
    }
  }

  lemma MarksHead(t: TaskList)
    requires Clean(t.initial) && Clean(t.source) && Clean(t.destination) && Clean(t.configuration)
    ensures Marks(Head(t)) == "<,,,"
  {
    NoMarks("BMT");
    MarksMore("BMT", '<', t.initial);
    MarksMore("BMT" + "<" + t.initial, ',', t.source);
    MarksMore("BMT" + "<" + t.initial + "," + t.source, ',', t.destination);
    MarksMore("BMT" + "<" + t.initial + "," + t.source + "," + t.destination, ',', t.configuration);
  }

  /** Angle brackets around the whole, commas between the places, and the objects in parentheses with a comma between any two. */
  lemma MarksPrinted(t: TaskList)
    requires Printable(t) && t.objects != []
    ensures Marks(Print(t)) == "<,,,(" + Commas(|t.objects| - 1) + "),>"
  {
    PrintedParts(t);
    MarksHead(t);
    MarksObjects(Head(t), t.objects);
    var s := Head(t) + "(" + Join(t.objects);
    MarksMore(s, ')', "");
    MarksMore(s + ")" + "", ',', t.finalPlace);
    MarksMore(s + ")" + "" + "," + t.finalPlace, '>', "");
  }

  /** A text is known from its pieces and its delimiters. */
  lemma {:induction false} PiecesAndMarks(a: string, b: string)
    requires Pieces(a) == Pieces(b) && Marks(a) == Marks(b)
    ensures a == b
    decreases |a|
  {
    PiecesCount(a);
    PiecesCount(b);
    if a != "" && b != "" {
      SameLast(a, b);
      PiecesAndMarks(a[..|a| - 1], b[..|b| - 1]);
      SnocSame(a, b);
    }
  }

  lemma SnocSame(a: string, b: string)
    requires a != "" && b != "" && a[..|a| - 1] == b[..|b| - 1] && a[|a| - 1] == b[|b| - 1]
    ensures a == b
  {
    assert a == a[..|a| - 1] + [a[|a| - 1]];
  }

  lemma SameLast(a: string, b: string)
    requires a != "" && b != "" && Pieces(a) == Pieces(b) && Marks(a) == Marks(b)
    ensures a[|a| - 1] == b[|b| - 1] && Pieces(a[..|a| - 1]) == Pieces(b[..|b| - 1]) && Marks(a[..|a| - 1]) == Marks(b[..|b| - 1])
  {
    LastPiece(a);
    LastPiece(b);
  }

  /** The last character is seen in the pieces and the delimiters, and so is the rest of the text. */
  lemma LastPiece(s: string)
    requires s != ""
    ensures var r, q, n := Pieces(s), Pieces(s[..|s| - 1]), |s| - 1;
      if Delimiter(s[n]) then r[|r| - 1] == "" && q == r[..|r| - 1] && Marks(s) != "" && s[n] == Marks(s)[|Marks(s)| - 1] && Marks(s[..n]) == Marks(s)[..|Marks(s)| - 1]
      else
        var last := r[|r| - 1];
        last != "" && s[n] == last[|last| - 1] && q == r[|r| - 1 := last[..|last| - 1]] && Marks(s[..n]) == Marks(s)
  {
    var q, n := Pieces(s[..|s| - 1]), |s| - 1;
    if Delimiter(s[n]) {
      assert Pieces(s) == q + [""];
    } else {
      var last := q[|q| - 1];
      assert Pieces(s) == q[|q| - 1 := last + [s[n]]];
      assert (last + [s[n]])[..|last|] == last;
    }
  }

  lemma {:induction false} PiecesCount(s: string)
    ensures |Pieces(s)| == |Marks(s)| + 1
    ensures s == "" <==> Pieces(s) == [""]
  {
    if s != "" { PiecesCount(s[..|s| - 1]); }
  }

  /** So the printed text is the only one that has these names between these delimiters. */
  lemma PrintedIsUnique(t: TaskList, s: string)
    requires Printable(t) && t.objects != []
    requires Pieces(s) == ["BMT", t.initial, t.source, t.destination, t.configuration] + t.objects + ["", t.finalPlace, ""]
    requires Marks(s) == "<,,,(" + Commas(|t.objects| - 1) + "),>"
    ensures s == Print(t)
  {
    PiecesPrinted(t);
    MarksPrinted(t);
    PiecesAndMarks(s, Print(t));
  }

  /** Only spaces and the five delimiters are not allowed in a name. */
  lemma AllowedNames(s: string)
    ensures Clean(s) <==> forall c :: c in s ==> c !in " <>,()"
  {
    if Clean(s) {
      forall c | c in s ensures c !in " <>,()" {
        var i :| 0 <= i < |s| && s[i] == c;
        assert s[i] != ' ' && !Delimiter(s[i]);
      }
    } else {
      var i :| 0 <= i < |s| && (s[i] == ' ' || Delimiter(s[i]));
      assert s[i] in s;
    }
  }

  // ---- The list as an object

  class TaskSpec {
    // Static fields of `BmtTask`.
    var placeInitial: string
    var placeSource: string
    var placeDestination: string
    var placeFinal: string
    var configuration: string
    // The objects of the tasks, in order.
    var tasks: seq<string>

    function View(): TaskList
      reads this
    {
      TaskList(placeInitial, placeSource, placeDestination, configuration, tasks, placeFinal)
    }

    constructor ()
      ensures View() == TaskList("", "", "", "", [], "")
    {
      placeInitial, placeSource, placeDestination, placeFinal, configuration, tasks := "", "", "", "", "", [];
    }

    method RemoveSpaces(str: string) returns (newStr: string)
      ensures newStr == WithoutSpaces(str)
    {
      newStr := "";
      var i := 0;
      while i < |str|
        invariant 0 <= i <= |str| && newStr == WithoutSpaces(str[..i])
      {
        assert str[..i + 1][..i] == str[..i];
        if str[i] != ' ' {
          newStr := newStr + [str[i]];
        }
        i := i + 1;
      }
      assert str[..|str|] == str;
    }

    method GetTaskSpecString() returns (s: string)
      ensures s == Print(View())
      ensures tasks == [] ==> s == "BMT<>"
    {
      s := "BMT" + "<";
      if |tasks| > 0 {
        s := s + placeInitial + "," + placeSource + "," + placeDestination + "," + configuration + "(" + tasks[0];
        ghost var head := Head(View()) + "(";
        assert Join(tasks[..1]) == tasks[0];
        var i := 1;
        while i < |tasks|
          invariant 1 <= i <= |tasks| && s == head + Join(tasks[..i])
        {
          assert tasks[..i + 1][..i] == tasks[..i];
          assert head + (Join(tasks[..i]) + "," + tasks[i]) == head + Join(tasks[..i]) + "," + tasks[i];
          s := s + "," + tasks[i];
          i := i + 1;
        }
        assert tasks[..|tasks|] == tasks;
        s := s + ")" + "," + placeFinal;
        PrintedParts(View());
      }
      s := s + ">";
    }

    method ParseTaskSpecString(text: string)
      requires |WithoutSpaces(text)| >= 3 && WithoutSpaces(text)[..3] == "BMT"
      modifies this
      ensures View() == Parse(text, old(View()))
      ensures |tasks| == if |Tokens(text)| > 7 then |Tokens(text)| - 7 else 0
      ensures forall i :: 0 <= i < |tasks| ==> tasks[i] == Tokens(text)[i + 5]
      ensures tasks != [] ==>
        placeInitial == Tokens(text)[1] && placeSource == Tokens(text)[2] && placeDestination == Tokens(text)[3] &&
        configuration == Tokens(text)[4] && placeFinal == Tokens(text)[|Tokens(text)| - 1]
      ensures tasks == [] ==> View() == old(View()).(objects := [])
    {
      var str := RemoveSpaces(text);
      var tokens := Trimmed(Pieces(str));
      tasks := [];
      var i := 5;
      while i < |tokens| - 2
        invariant 5 <= i && (i == 5 || i <= |tokens| - 2)
        invariant i == 5 ==> View() == old(View()).(objects := [])
        invariant i > 5 ==> View() == TaskList(tokens[1], tokens[2], tokens[3], tokens[4], tokens[5..i], tokens[|tokens| - 1])
        decreases |tokens| - i
      {
        placeInitial := tokens[1];
        placeSource := tokens[2];
        placeDestination := tokens[3];
        configuration := tokens[4];
        placeFinal := tokens[|tokens| - 1];
        tasks := tasks + [tokens[i]];
        i := i + 1;
      }
    }
  }
}
