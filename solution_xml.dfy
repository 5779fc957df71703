/**
 * The XML encoding of a game's solution, `RecursoPartida.solucionAXML`
 * (src/servicios/RecursoPartida.java:195-204):
 *
 *   <solucion tam="N"><barco>d0</barco>...<barco>d(N-1)</barco></solucion>
 *
 * `SolutionXml` is the specification of the encoding, `SolucionAXML` the
 * StringBuilder loop proved equal to it, and `DecodeSolution` a reader whose
 * round trip with the encoding shows that the output carries `tam` and every
 * descriptor, in index order, and nothing else.
 */
module SolutionEncoding {
  import opened Options
  import opened Decimal

  const TagOpenPrefix := "<solucion tam=\""
  const TagOpenSuffix := "\">"
  const BarcoOpen := "<barco>"
  const BarcoClose := "</barco>"
  const TagClose := "</solucion>"

  /** The opening `solucion` element with its `tam` attribute. */
  function OpenTag(numBarcos: int): string {
    TagOpenPrefix + IntToString(numBarcos) + TagOpenSuffix
  }

  /** One `barco` element around a ship descriptor. */
  function Barco(d: string): string {
    BarcoOpen + d + BarcoClose
  }

  /** The `barco` elements of the descriptors `ds`, in order. */
  function Barcos(ds: seq<string>): string {
    if ds == [] then "" else Barco(ds[0]) + Barcos(ds[1..])
  }

  /** How many descriptors the loop `for (i = 0; i < numBarcos; i++)` visits. */
  function Visited(numBarcos: int): nat {
    if numBarcos < 0 then 0 else numBarcos
  }

  /**
   * The string `solucionAXML(solucion, numBarcos)` returns. The source indexes
   * `solucion[i]` for every `i < numBarcos`, so `numBarcos` may not exceed the
   * array's length; a negative `numBarcos` yields no `barco` element.
   */
  function SolutionXml(solucion: seq<string>, numBarcos: int): string
    requires numBarcos <= |solucion|
  {
    OpenTag(numBarcos) + Barcos(solucion[..Visited(numBarcos)]) + TagClose
  }

  lemma {:induction false} BarcosAppend(a: seq<string>, b: seq<string>)
    ensures Barcos(a + b) == Barcos(a) + Barcos(b)
  {
    if a != [] {
      assert (a + b)[0] == a[0];
      assert (a + b)[1..] == a[1..] + b;
      BarcosAppend(a[1..], b);
      calc {
        Barcos(a + b);
        Barco(a[0]) + Barcos(a[1..] + b);
        Barco(a[0]) + (Barcos(a[1..]) + Barcos(b));
      }
    } else {
      assert a + b == b;
    }
  }

  lemma BarcosSnoc(ds: seq<string>, i: nat)
    requires i < |ds|
    ensures Barcos(ds[..i + 1]) == Barcos(ds[..i]) + Barco(ds[i])
  {
    assert ds[..i + 1] == ds[..i] + [ds[i]];
    BarcosAppend(ds[..i], [ds[i]]);
    assert Barcos([ds[i]]) == Barco(ds[i]) + Barcos([]);
  }

  /** The StringBuilder loop of `solucionAXML`. */
  method SolucionAXML(solucion: seq<string>, numBarcos: int) returns (xml: string)
    requires numBarcos <= |solucion|
    ensures xml == SolutionXml(solucion, numBarcos)
  {
    var str := OpenTag(numBarcos);
    var i := 0;
    assert solucion[..i] == [];
    while i < numBarcos
      invariant 0 <= i <= Visited(numBarcos)
      invariant str == OpenTag(numBarcos) + Barcos(solucion[..i])
    {
      BarcosSnoc(solucion, i);
      str := str + Barco(solucion[i]);
      i := i + 1;
    }
    assert i == Visited(numBarcos);
    xml := str + TagClose;
  }

  // ---------------------------------------------------------------------------
  // Size of the encoding

  function TotalLength(ds: seq<string>): nat {
    if ds == [] then 0 else |ds[0]| + TotalLength(ds[1..])
  }

  lemma {:induction false} BarcosLength(ds: seq<string>)
    ensures |Barcos(ds)| == TotalLength(ds) + 15 * |ds|
  {
    if ds != [] {
      BarcosLength(ds[1..]);
    }
  }

  /**
   * The output is the opening tag (15 + |N| + 2 characters), then 15 characters
   * of markup around each visited descriptor, then the 11-character closing tag.
   */
  lemma SolutionXmlLength(solucion: seq<string>, numBarcos: int)
    requires numBarcos <= |solucion|
    ensures |SolutionXml(solucion, numBarcos)|
         == 17 + |IntToString(numBarcos)| + TotalLength(solucion[..Visited(numBarcos)])
            + 15 * Visited(numBarcos) + 11
  {
    BarcosLength(solucion[..Visited(numBarcos)]);
  }

  // ---------------------------------------------------------------------------
  // Reading the encoding back

  /** Index of the first `c` in `s`, or `|s|` when there is none. */
  function Find(s: string, c: char): (k: nat)
    ensures k <= |s|
    ensures forall i :: 0 <= i < k ==> s[i] != c
    ensures k < |s| ==> s[k] == c
  {
    if s == [] || s[0] == c then 0 else 1 + Find(s[1..], c)
  }

  lemma {:induction false} FindAfter(a: string, c: char, b: string)
    requires c !in a
    requires |b| > 0 && b[0] == c
    ensures Find(a + b, c) == |a|
  {
    if a != [] {
      assert (a + b)[1..] == a[1..] + b;
      FindAfter(a[1..], c, b);
    }
  }

  /** Reads `<barco>d</barco>`... up to and including `</solucion>`. */
  function DecodeBarcos(x: string): Option<seq<string>>
    decreases |x|
  {
    if x == TagClose then Some([])
    else if BarcoOpen <= x then
      var rest := x[|BarcoOpen|..];
      var k := Find(rest, '<');
      var after := rest[k..];
      if BarcoClose <= after then
        match DecodeBarcos(after[|BarcoClose|..])
        case None => None
        case Some(ds) => Some([rest[..k]] + ds)
      else None
    else None
  }

  /** Reads a whole `solucion` document into its `tam` and its descriptors. */
  function DecodeSolution(x: string): Option<(int, seq<string>)> {
    if !(TagOpenPrefix <= x) then None
    else
      var rest := x[|TagOpenPrefix|..];
      var k := Find(rest, '"');
      var tam := ParseInt(rest[..k]);
      var after := rest[k..];
      if tam.None? || !(TagOpenSuffix <= after) then None
      else
        match DecodeBarcos(after[|TagOpenSuffix|..])
        case None => None
        case Some(ds) => Some((tam.value, ds))
  }

  /** No descriptor holds `<`: the condition the decoder needs, since the encoder escapes nothing. */
  predicate NoMarkup(ds: seq<string>) {
    forall i :: 0 <= i < |ds| ==> '<' !in ds[i]
  }

  /** One `barco` element is read off the front of the rest of the document. */
  lemma DecodeBarcoStep(d: string, tail: string)
    requires '<' !in d
    ensures DecodeBarcos(Barco(d) + tail)
         == match DecodeBarcos(tail)
            case None => None
            case Some(ds) => Some([d] + ds)
  {
    var x := Barco(d) + tail;
    assert x == BarcoOpen + (d + (BarcoClose + tail));
    assert x != TagClose by { assert x[1] != TagClose[1]; }
    var rest := x[|BarcoOpen|..];
    assert rest == d + (BarcoClose + tail);
    FindAfter(d, '<', BarcoClose + tail);
    assert rest[..|d|] == d;
    assert rest[|d|..] == BarcoClose + tail;
    assert (BarcoClose + tail)[|BarcoClose|..] == tail;
  }

  lemma {:induction false} DecodeBarcosRoundTrip(ds: seq<string>)
    requires NoMarkup(ds)
    ensures DecodeBarcos(Barcos(ds) + TagClose) == Some(ds)
  {
    if ds != [] {
      var tail := Barcos(ds[1..]) + TagClose;
      assert Barcos(ds) + TagClose == Barco(ds[0]) + tail;
      DecodeBarcoStep(ds[0], tail);
      DecodeBarcosRoundTrip(ds[1..]);
      assert [ds[0]] + ds[1..] == ds;
    }
  }

  /**
   * Round trip: the encoding gives back `tam` and exactly the visited
   * descriptors, in index order, whenever those contain no `<`.
   */
  lemma SolutionRoundTrip(solucion: seq<string>, numBarcos: int)
    requires numBarcos <= |solucion|
    requires NoMarkup(solucion[..Visited(numBarcos)])
    ensures DecodeSolution(SolutionXml(solucion, numBarcos))
         == Some((numBarcos, solucion[..Visited(numBarcos)]))
  {
    var ds := solucion[..Visited(numBarcos)];
    var num := IntToString(numBarcos);
    var body := Barcos(ds) + TagClose;
    var x := SolutionXml(solucion, numBarcos);
    assert x == TagOpenPrefix + (num + (TagOpenSuffix + body));
    var rest := x[|TagOpenPrefix|..];
    assert rest == num + (TagOpenSuffix + body);
    FindAfter(num, '"', TagOpenSuffix + body);
    assert rest[..|num|] == num;
    assert rest[|num|..] == TagOpenSuffix + body;
    assert (TagOpenSuffix + body)[|TagOpenSuffix|..] == body;
    IntToStringRoundTrip(numBarcos);
    DecodeBarcosRoundTrip(ds);
  }

  /**
   * What `getSolucion` sends (`numBarcos` is the array's length): `tam` equals
   * the number of `barco` elements, and those are the descriptors in order.
   */
  lemma TamCountsBarcos(solucion: seq<string>)
    requires NoMarkup(solucion)
    ensures DecodeSolution(SolutionXml(solucion, |solucion|)) == Some((|solucion|, solucion))
  {
    assert solucion[..Visited(|solucion|)] == solucion;
    SolutionRoundTrip(solucion, |solucion|);
  }

  /** Without `NoMarkup` two different lists can give the same document. */
  lemma MarkupBreaksInjectivity()
    ensures var a, b := ["x</barco><barco>y", "z"], ["x", "y</barco><barco>z"];
            a != b && SolutionXml(a, |a|) == SolutionXml(b, |b|)
  {
    var a, b := ["x</barco><barco>y", "z"], ["x", "y</barco><barco>z"];
    assert a[0] != b[0] by { assert |a[0]| != |b[0]|; }
    assert a[..2] == a && b[..2] == b;
    calc {
      Barcos(a);
      Barco(a[0]) + (Barco(a[1]) + Barcos([]));
      BarcoOpen + "x" + BarcoClose + BarcoOpen + "y" + BarcoClose + BarcoOpen + "z" + BarcoClose;
      Barco(b[0]) + (Barco(b[1]) + Barcos([]));
      Barcos(b);
    }
  }

  /**
   * Different descriptor lists without `<` never share an encoding. The
   * condition is needed: the encoder escapes nothing, so a descriptor holding
   * `</barco><barco>` can split or merge elements.
   */
  lemma SolutionXmlInjective(a: seq<string>, b: seq<string>)
    requires NoMarkup(a) && NoMarkup(b)
    requires SolutionXml(a, |a|) == SolutionXml(b, |b|)
    ensures a == b
  {
    TamCountsBarcos(a);
    TamCountsBarcos(b);
  }
}
