// The text layout exportNet writes and importNet reads back. Numbers are
// turned into text and back by functions given as parameters (str and
// float / int in the program).

module NetFile {
  import opened Numeric

  /** The join exportNet's loops build: every item followed by `sep`, then
      the last `sep` cut off; no items give the empty text. */
  function Joined(items: seq<string>, sep: string): string
  {
    if |items| == 0 then ""
    else if |items| == 1 then items[0]
    else Joined(items[..|items| - 1], sep) + sep + items[|items| - 1]
  }

  /** Python's str.split on a one-character separator. */
  function Split(s: string, c: char): (r: seq<string>)
    ensures |r| >= 1
  {
    if |s| == 0 then [""]
    else
      var rest := Split(s[1..], c);
      if s[0] == c then [""] + rest else [[s[0]] + rest[0]] + rest[1..]
  }

  /** Text without the separator is not split. */
  lemma {:induction false} SplitNone(s: string, c: char)
    requires c !in s
    ensures Split(s, c) == [s]
  {
    if |s| > 0 {
      SplitNone(s[1..], c);
      assert [s[0]] + s[1..] == s;
    }
  }

  /** Splitting at a separator splits the two sides independently. */
  lemma {:induction false} SplitAt(a: string, b: string, c: char)
    ensures Split(a + [c] + b, c) == Split(a, c) + Split(b, c)
  {
    var s := a + [c] + b;
    if |a| == 0 {
      assert s[1..] == b;
    } else {
      assert s[1..] == a[1..] + [c] + b;
      SplitAt(a[1..], b, c);
    }
  }

  /** Splitting a join of separator-free items gives the items back. */
  lemma {:induction false} SplitJoined(items: seq<string>, c: char)
    requires |items| >= 1
    requires forall i :: 0 <= i < |items| ==> c !in items[i]
    ensures Split(Joined(items, [c]), c) == items
  {
    var last := |items| - 1;
    SplitNone(items[last], c);
    if |items| > 1 {
      SplitJoined(items[..last], c);
      SplitAt(Joined(items[..last], [c]), items[last], c);
      assert items[..last] + [items[last]] == items;
    }
  }

  /** A join contains a character only if an item or the separator does. */
  lemma {:induction false} JoinedFree(items: seq<string>, sep: string, c: char)
    requires c !in sep
    requires forall i :: 0 <= i < |items| ==> c !in items[i]
    ensures c !in Joined(items, sep)
  {
    if |items| > 1 {
      JoinedFree(items[..|items| - 1], sep, c);
    }
  }

  /** Every element shown as text. */
  function Shown<T>(xs: seq<T>, show: T -> string): (r: seq<string>)
    ensures |r| == |xs|
    ensures forall i :: 0 <= i < |xs| ==> r[i] == show(xs[i])
  {
    seq(|xs|, i requires 0 <= i < |xs| => show(xs[i]))
  }

  /** n copies of a text (none for n <= 0, as range does). */
  function Copies(s: string, n: int): (r: seq<string>)
    ensures |r| == if n <= 0 then 0 else n
    ensures forall i :: 0 <= i < |r| ==> r[i] == s
  {
    if n <= 0 then [] else Copies(s, n - 1) + [s]
  }

  /** numK.sum() */
  function SumInts(xs: seq<int>): int
  {
    if |xs| == 0 then 0 else SumInts(xs[..|xs| - 1]) + xs[|xs| - 1]
  }

  /** The output names Class0, Class1, ... */
  function ClassNames(n: nat, showInt: int -> string): (r: seq<string>)
    ensures |r| == n
  {
    seq(n, i requires 0 <= i < n => "Class" + showInt(i))
  }

  const InputNames: string := "NombresEntradas: Pitch, n0, n1, n2, n3, n4, n5, n6, n7, n8, n9, n10, n11, n12"

  /** The sixteen lines exportNet writes: a header, the weights on line 4,
      the dendrite counts on line 6, then constant normalisation data and
      names. The dimensions line is fixed at "14,3". */
  function NetLines(pesW: seq<real>, numK: seq<int>, showReal: real -> string, showInt: int -> string): (lines: seq<string>)
    ensures |lines| == 16
  {
    [ "DMNN: SoundRecognitionDSP",
      "Dimension: Entradas, Clases",
      "14,3",
      "Pesos",
      Joined(Shown(pesW, showReal), ","),
      "DendritasPorClase",
      Joined(Shown(numK, showInt), ","),
      "Activas",
      Joined(Copies("1", SumInts(numK)), ","),
      "NormalizacionH",
      Joined(Copies("1.", 14), ","),
      "NormalizacionL",
      Joined(Copies("-1.", 14), ","),
      "NormalizacionN: 0.0",
      "NombresSalidas: " + Joined(ClassNames(|numK|, showInt), ", "),
      InputNames ]
  }

  /** The file: every line followed by a newline. */
  function FileText(lines: seq<string>): string
  {
    Joined(lines + [""], "\n")
  }

  /** Every text parsed, or None at the first one that does not parse. */
  function ParseAll<T>(texts: seq<string>, parse: string -> Option<T>): (r: Option<seq<T>>)
    ensures r.Some? ==> |r.value| == |texts|
    ensures r.Some? <==> forall i :: 0 <= i < |texts| ==> parse(texts[i]).Some?
  {
    if |texts| == 0 then Some([])
    else
      match ParseAll(texts[..|texts| - 1], parse)
      case None => None
      case Some(front) =>
        match parse(texts[|texts| - 1])
        case None => None
        case Some(x) => Some(front + [x])
  }

  /** Parsing shown values gives the values back when parse inverts show. */
  lemma {:induction false} ParseShown<T>(xs: seq<T>, show: T -> string, parse: string -> Option<T>)
    requires forall i :: 0 <= i < |xs| ==> parse(Shown(xs, show)[i]) == Some(xs[i])
    ensures ParseAll(Shown(xs, show), parse) == Some(xs)
  {
    if |xs| > 0 {
      var last := |xs| - 1;
      assert Shown(xs, show)[..last] == Shown(xs[..last], show);
      ParseShown(xs[..last], show, parse);
      assert xs[..last] + [xs[last]] == xs;
    }
  }

  /** How importNet ends: the first line does not name a DMNN file (nothing
      happens), an error was caught, or the net was loaded. */
  datatype Outcome = NotANet | Failed | Loaded

  /** The tag importNet looks for at the start of the first line. */
  const Tag: string := "DMNN: "

  /** txt[0].find("DMNN: ") == 0: the line starts with the tag. */
  predicate Tagged(line: string)
  {
    |Tag| <= |line| && line[..|Tag|] == Tag
  }

  /** What importNet does with the lines of a file: the outcome and the new
      weights and dendrite counts, each None where the field is left as it
      was. The weights are stored before the counts are read, so a file
      whose counts line is missing or unreadable still replaces them. */
  function ReadNet(txt: seq<string>, parseReal: string -> Option<real>, parseInt: string -> Option<int>)
    : (r: (Outcome, Option<seq<real>>, Option<seq<int>>))
    requires |txt| >= 1
    ensures r.0 == Loaded <==> r.2.Some?
    ensures r.2.Some? ==> r.1.Some?
    ensures r.0 == NotANet <==> !Tagged(txt[0])
    ensures r.0 == NotANet ==> r.1.None?
  {
    if !Tagged(txt[0]) then (NotANet, None, None)
    else if |txt| <= 4 then (Failed, None, None)
    else
      match ParseAll(Split(txt[4], ','), parseReal)
      case None => (Failed, None, None)
      case Some(w) =>
        if |txt| <= 6 then (Failed, Some(w), None)
        else
          match ParseAll(Split(txt[6], ','), parseInt)
          case None => (Failed, Some(w), None)
          case Some(k) => (Loaded, Some(w), Some(k))
  }

  /** importNet on a file's text: file.read().split("\n"), then ReadNet. */
  function ImportOf(text: string, parseReal: string -> Option<real>, parseInt: string -> Option<int>)
    : (r: (Outcome, Option<seq<real>>, Option<seq<int>>))
  {
    ReadNet(Split(text, '\n'), parseReal, parseInt)
  }

  /** Joining two non-empty lists joins their joins. */
  lemma {:induction false} JoinedAppend(a: seq<string>, b: seq<string>, sep: string)
    requires |a| >= 1 && |b| >= 1
    ensures Joined(a + b, sep) == Joined(a, sep) + sep + Joined(b, sep)
    decreases |b|
  {
    var ab := a + b;
    if |b| == 1 {
      assert ab[..|ab| - 1] == a;
    } else {
      var last := |b| - 1;
      assert ab[..|ab| - 1] == a + b[..last];
      JoinedAppend(a, b[..last], sep);
    }
  }

  /** The first seven lines, the ones importNet reads. */
  function Head(pesW: seq<real>, numK: seq<int>, showReal: real -> string, showInt: int -> string): (h: seq<string>)
    ensures |h| == 7
  {
    [ "DMNN: SoundRecognitionDSP",
      "Dimension: Entradas, Clases",
      "14,3",
      "Pesos",
      Joined(Shown(pesW, showReal), ","),
      "DendritasPorClase",
      Joined(Shown(numK, showInt), ",") ]
  }

  /** None of the first seven lines contains a newline. */
  lemma HeadFree(pesW: seq<real>, numK: seq<int>, showReal: real -> string, showInt: int -> string)
    requires forall x :: '\n' !in showReal(x)
    requires forall x :: '\n' !in showInt(x)
    ensures forall i :: 0 <= i < 7 ==> '\n' !in Head(pesW, numK, showReal, showInt)[i]
  {
    forall i | 0 <= i < |pesW|
      ensures '\n' !in Shown(pesW, showReal)[i]
    {
      var x := pesW[i];
      assert '\n' !in showReal(x);
    }
    JoinedFree(Shown(pesW, showReal), ",", '\n');
    forall i | 0 <= i < |numK|
      ensures '\n' !in Shown(numK, showInt)[i]
    {
      var x := numK[i];
      assert '\n' !in showInt(x);
    }
    JoinedFree(Shown(numK, showInt), ",", '\n');
    LabelsFree();
  }

  /** The fixed lines of the head contain no newline. */
  lemma LabelsFree()
    ensures '\n' !in "DMNN: SoundRecognitionDSP"
    ensures '\n' !in "Dimension: Entradas, Clases"
    ensures '\n' !in "14,3"
    ensures '\n' !in "Pesos"
    ensures '\n' !in "DendritasPorClase"
  {
  }

  /** Reading the file split at newlines starts with its first seven lines. */
  lemma FileHead(pesW: seq<real>, numK: seq<int>, showReal: real -> string, showInt: int -> string)
    requires forall x :: '\n' !in showReal(x)
    requires forall x :: '\n' !in showInt(x)
    ensures |Split(FileText(NetLines(pesW, numK, showReal, showInt)), '\n')| > 7
    ensures Split(FileText(NetLines(pesW, numK, showReal, showInt)), '\n')[..7]
      == Head(pesW, numK, showReal, showInt)
  {
    var lines := NetLines(pesW, numK, showReal, showInt) + [""];
    var head := Head(pesW, numK, showReal, showInt);
    var tail := lines[7..];
    assert lines == head + tail;
    JoinedAppend(head, tail, "\n");
    HeadFree(pesW, numK, showReal, showInt);
    SplitJoined(head, '\n');
    SplitAt(Joined(head, "\n"), Joined(tail, "\n"), '\n');
  }

  /** A shown list with no separator in any shown value splits back. */
  lemma SplitShown<T>(xs: seq<T>, show: T -> string)
    requires |xs| >= 1
    requires forall i :: 0 <= i < |xs| ==> ',' !in Shown(xs, show)[i]
    ensures Split(Joined(Shown(xs, show), ","), ',') == Shown(xs, show)
  {
    SplitJoined(Shown(xs, show), ',');
  }

  lemma HeaderTagged()
    ensures Tagged("DMNN: SoundRecognitionDSP")
  {
    assert "DMNN: SoundRecognitionDSP"[..6] == Tag;
  }

  /** The three lines importNet reads from an exported file. */
  lemma FileLines(pesW: seq<real>, numK: seq<int>, showReal: real -> string, showInt: int -> string)
    requires forall x :: '\n' !in showReal(x)
    requires forall x :: '\n' !in showInt(x)
    ensures var txt := Split(FileText(NetLines(pesW, numK, showReal, showInt)), '\n');
      |txt| > 7 && Tagged(txt[0])
      && txt[4] == Joined(Shown(pesW, showReal), ",")
      && txt[6] == Joined(Shown(numK, showInt), ",")
  {
    var txt := Split(FileText(NetLines(pesW, numK, showReal, showInt)), '\n');
    FileHead(pesW, numK, showReal, showInt);
    assert txt[0] == txt[..7][0];
    assert txt[4] == txt[..7][4];
    assert txt[6] == txt[..7][6];
    HeaderTagged();
  }

  /** Shown values without commas or newlines that parse back are read
      back from their joined line. */
  lemma ReadBack<T>(xs: seq<T>, show: T -> string, parse: string -> Option<T>)
    requires |xs| >= 1
    requires forall i :: 0 <= i < |xs| ==>
      ',' !in Shown(xs, show)[i] && parse(Shown(xs, show)[i]) == Some(xs[i])
    ensures ParseAll(Split(Joined(Shown(xs, show), ","), ','), parse) == Some(xs)
  {
    SplitShown(xs, show);
    ParseShown(xs, show, parse);
  }

  /** Importing an exported net restores its weights and dendrite counts,
      provided the number texts parse back and contain no separators. */
  lemma ImportExport(pesW: seq<real>, numK: seq<int>, showReal: real -> string, showInt: int -> string,
                     parseReal: string -> Option<real>, parseInt: string -> Option<int>)
    requires |pesW| >= 1 && |numK| >= 1
    requires forall x :: parseReal(showReal(x)) == Some(x) && ',' !in showReal(x) && '\n' !in showReal(x)
    requires forall x :: parseInt(showInt(x)) == Some(x) && ',' !in showInt(x) && '\n' !in showInt(x)
    ensures ImportOf(FileText(NetLines(pesW, numK, showReal, showInt)), parseReal, parseInt)
      == (Loaded, Some(pesW), Some(numK))
  {
    FileLines(pesW, numK, showReal, showInt);
    forall i | 0 <= i < |pesW|
      ensures ',' !in Shown(pesW, showReal)[i] && parseReal(Shown(pesW, showReal)[i]) == Some(pesW[i])
    {
      var x := pesW[i];
      assert ',' !in showReal(x) && parseReal(showReal(x)) == Some(x);
    }
    ReadBack(pesW, showReal, parseReal);
    forall i | 0 <= i < |numK|
      ensures ',' !in Shown(numK, showInt)[i] && parseInt(Shown(numK, showInt)[i]) == Some(numK[i])
    {
      var x := numK[i];
      assert ',' !in showInt(x) && parseInt(showInt(x)) == Some(x);
    }
    ReadBack(numK, showInt, parseInt);
  }

  /** A net with no weights exports an empty weights line, which float()
      rejects on import: nothing is loaded. */
  lemma EmptyNetNotReloaded(numK: seq<int>, showReal: real -> string, showInt: int -> string,
                            parseReal: string -> Option<real>, parseInt: string -> Option<int>)
    requires parseReal("") == None
    requires forall x :: '\n' !in showReal(x)
    requires forall x :: '\n' !in showInt(x)
    ensures ImportOf(FileText(NetLines([], numK, showReal, showInt)), parseReal, parseInt)
      == (Failed, None, None)
  {
    FileLines([], numK, showReal, showInt);
    assert Joined(Shown([], showReal), ",") == "";
    assert Split("", ',') == [""];
  }

  /** Import is not atomic: with a readable weights line and an unreadable
      counts line the weights are replaced although the import fails. */
  lemma ImportNotAtomic(pesW: seq<real>, showReal: real -> string, showInt: int -> string,
                        parseReal: string -> Option<real>, parseInt: string -> Option<int>)
    requires |pesW| >= 1 && parseInt("") == None
    requires forall x :: parseReal(showReal(x)) == Some(x) && ',' !in showReal(x) && '\n' !in showReal(x)
    requires forall x :: '\n' !in showInt(x)
    ensures ImportOf(FileText(NetLines(pesW, [], showReal, showInt)), parseReal, parseInt)
      == (Failed, Some(pesW), None)
  {
    FileLines(pesW, [], showReal, showInt);
    forall i | 0 <= i < |pesW|
      ensures ',' !in Shown(pesW, showReal)[i] && parseReal(Shown(pesW, showReal)[i]) == Some(pesW[i])
    {
      var x := pesW[i];
      assert ',' !in showReal(x) && parseReal(showReal(x)) == Some(x);
    }
    ReadBack(pesW, showReal, parseReal);
    assert Joined(Shown([], showInt), ",") == "";
    assert Split("", ',') == [""];
  }
}
