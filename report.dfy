/** The text of the PDF summary report: item names translated to English,
    one line per row, every line squeezed into Latin-1. */
module Report {
  import opened Judgement

  /** The fixed Korean-to-English item-name table. */
  const RenameMap: map<string, string> := map[
    "온도" := "Temperature",
    "색상" := "Color",
    "탁도" := "Turbidity",
    "pH" := "pH",
    "수분함량" := "Moisture",
    "점도" := "Viscosity",
    "비중" := "Specific Gravity",
    "항목1" := "Item 1",
    "항목2" := "Item 2",
    "항목3" := "Item 3",
    "항목4" := "Item 4",
    "항목5" := "Item 5"
  ]

  /** Dictionary lookup with the name itself as the default. */
  function Translate(name: string): (r: string)
    ensures name in RenameMap ==> r == RenameMap[name]
    ensures name !in RenameMap ==> r == name
  {
    if name in RenameMap then RenameMap[name] else name
  }

  /** The English names reported for the twelve keys: eleven Korean item
      names and "pH". */
  lemma RenameMapEntries()
    ensures Translate("온도") == "Temperature" && Translate("색상") == "Color"
    ensures Translate("탁도") == "Turbidity" && Translate("pH") == "pH"
    ensures Translate("수분함량") == "Moisture" && Translate("점도") == "Viscosity"
    ensures Translate("비중") == "Specific Gravity"
    ensures Translate("항목1") == "Item 1" && Translate("항목2") == "Item 2"
    ensures Translate("항목3") == "Item 3" && Translate("항목4") == "Item 4"
    ensures Translate("항목5") == "Item 5"
  {
  }

  // ------------------------------------------------------------- Latin-1

  const MaxLatin1: char := '\U{FF}'

  predicate IsLatin1(s: string)
  {
    forall i :: 0 <= i < |s| ==> s[i] <= MaxLatin1
  }

  /** One character through `encode('latin-1', 'replace')` and back. */
  function Latin1Char(c: char): (d: char)
    ensures d <= MaxLatin1
    ensures c <= MaxLatin1 ==> d == c
    ensures c > MaxLatin1 ==> d == '?'
  {
    if c <= MaxLatin1 then c else '?'
  }

  /** A whole string through `encode('latin-1', 'replace').decode('latin-1')`:
      each character that Latin-1 cannot hold becomes one '?'. */
  function Latin1Replace(s: string): (r: string)
    ensures |r| == |s|
    ensures forall i :: 0 <= i < |s| ==> r[i] == Latin1Char(s[i])
  {
    if s == [] then [] else [Latin1Char(s[0])] + Latin1Replace(s[1..])
  }

  lemma Latin1ReplaceIsLatin1(s: string)
    ensures IsLatin1(Latin1Replace(s))
  {
  }

  lemma Latin1ReplaceKeepsLatin1(s: string)
    requires IsLatin1(s)
    ensures Latin1Replace(s) == s
  {
  }

  /** A string changes under the replacement exactly when it has a
      character above U+00FF. */
  lemma Latin1ReplaceChangesIff(s: string)
    ensures Latin1Replace(s) == s <==> IsLatin1(s)
  {
    if Latin1Replace(s) == s {
      forall i | 0 <= i < |s| ensures s[i] <= MaxLatin1 {
        assert Latin1Replace(s)[i] == Latin1Char(s[i]);
      }
    }
  }

  lemma Latin1ReplaceIdempotent(s: string)
    ensures Latin1Replace(Latin1Replace(s)) == Latin1Replace(s)
  {
    Latin1ReplaceIsLatin1(s);
    Latin1ReplaceKeepsLatin1(Latin1Replace(s));
  }

  /** The replacement works character by character, so it distributes over
      concatenation. */
  lemma Latin1ReplaceConcat(a: string, b: string)
    ensures Latin1Replace(a + b) == Latin1Replace(a) + Latin1Replace(b)
  {
    assert forall i :: 0 <= i < |a + b| ==>
      Latin1Replace(a + b)[i] == (Latin1Replace(a) + Latin1Replace(b))[i];
  }

  lemma Latin1Concat(a: string, b: string)
    requires IsLatin1(a) && IsLatin1(b)
    ensures IsLatin1(a + b)
  {
    forall i | 0 <= i < |a + b| ensures (a + b)[i] <= MaxLatin1 {
      if i >= |a| {
        assert (a + b)[i] == b[i - |a|];
      }
    }
  }

  /** Every English name in the table survives the replacement. */
  lemma MappedNamesAreLatin1(name: string)
    requires name in RenameMap
    ensures Latin1Replace(Translate(name)) == Translate(name)
  {
    assert IsLatin1(RenameMap[name]);
    Latin1ReplaceKeepsLatin1(Translate(name));
  }

  /** A name missing from the table that is written entirely outside
      Latin-1 (a Korean name, say) appears as one '?' per character. */
  lemma UnmappedNameBecomesQuestionMarks(name: string)
    requires name !in RenameMap
    requires forall i :: 0 <= i < |name| ==> name[i] > MaxLatin1
    ensures |Latin1Replace(Translate(name))| == |name|
    ensures forall i :: 0 <= i < |name| ==> Latin1Replace(Translate(name))[i] == '?'
  {
  }

  // -------------------------------------------------------- report lines

  const Title: string := "QC Test Summary Report"

  /** The separator between the two limits is EN DASH (U+2013). */
  const RangeDash: char := '\U{2013}'

  /** How Python's `str` renders a cell of each numeric column. Each column
      has its own dtype, so a value column of floats prints `10.0` while an
      integer limit column prints `10`. */
  datatype Formats = Formats(value: real -> string, lower: real -> string, upper: real -> string)

  /** The f-string between the item name and the range dash. */
  function LineMiddle(r: Row, fmt: Formats): string
  {
    ": Value=" + fmt.value(r.value) + ", Spec=(" + fmt.lower(r.lower)
  }

  /** The f-string after the range dash. */
  function LineTail(r: Row, result: Verdict, outlier: string, fmt: Formats): string
  {
    fmt.upper(r.upper) + "), Result=" + VerdictText(result) + ", Outlier=" + outlier
  }

  /** The f-string of one row before the Latin-1 step:
      `{item}: Value={v}, Spec=({lo}–{hi}), Result={result}, Outlier={mark}`. */
  function RawLine(r: Row, result: Verdict, outlier: string, fmt: Formats): (raw: string)
    ensures |raw| == |Translate(r.item)| + |LineMiddle(r, fmt)| + 1 + |LineTail(r, result, outlier, fmt)|
  {
    Translate(r.item) + LineMiddle(r, fmt) + [RangeDash] + LineTail(r, result, outlier, fmt)
  }

  /** The f-string starts with the translated name, and the one character
      between the two limits is the en dash. */
  lemma RawLineLayout(r: Row, result: Verdict, outlier: string, fmt: Formats)
    ensures var raw, k := RawLine(r, result, outlier, fmt), |Translate(r.item)| + |LineMiddle(r, fmt)|;
      && raw[..|Translate(r.item)|] == Translate(r.item)
      && raw[k] == RangeDash
      && raw[..k] == Translate(r.item) + LineMiddle(r, fmt)
      && raw[k + 1..] == LineTail(r, result, outlier, fmt)
  {
  }

  /** The text of one report cell. */
  function ReportLine(r: Row, result: Verdict, outlier: string, fmt: Formats): (line: string)
    ensures IsLatin1(line)
    ensures |line| == |RawLine(r, result, outlier, fmt)|
  {
    Latin1ReplaceIsLatin1(RawLine(r, result, outlier, fmt));
    Latin1Replace(RawLine(r, result, outlier, fmt))
  }

  /** When the numbers and the Outlier mark are plain Latin-1 text, the
      only characters changed are those of the item name outside Latin-1
      and the range dash, which always prints as '?'. */
  lemma ReportLineShape(r: Row, result: Verdict, outlier: string, fmt: Formats)
    requires IsLatin1(fmt.value(r.value)) && IsLatin1(fmt.lower(r.lower)) && IsLatin1(fmt.upper(r.upper))
    requires IsLatin1(outlier)
    ensures ReportLine(r, result, outlier, fmt)
      == Latin1Replace(Translate(r.item)) + LineMiddle(r, fmt) + "?" + LineTail(r, result, outlier, fmt)
  {
    var a := Translate(r.item);
    var b := LineMiddle(r, fmt);
    var c := LineTail(r, result, outlier, fmt);
    Latin1ReplaceConcat(a + b + [RangeDash], c);
    Latin1ReplaceConcat(a + b, [RangeDash]);
    Latin1ReplaceConcat(a, b);
    Latin1Concat(": Value=", fmt.value(r.value));
    Latin1Concat(": Value=" + fmt.value(r.value), ", Spec=(");
    Latin1Concat(": Value=" + fmt.value(r.value) + ", Spec=(", fmt.lower(r.lower));
    Latin1ReplaceKeepsLatin1(b);
    Latin1Concat(fmt.upper(r.upper), "), Result=");
    Latin1Concat(fmt.upper(r.upper) + "), Result=", VerdictText(result));
    Latin1Concat(fmt.upper(r.upper) + "), Result=" + VerdictText(result), ", Outlier=");
    Latin1Concat(fmt.upper(r.upper) + "), Result=" + VerdictText(result) + ", Outlier=", outlier);
    Latin1ReplaceKeepsLatin1(c);
    assert Latin1Replace([RangeDash]) == "?";
  }

  /** The text cells of the PDF in order: the title, then one line per row.
      `results` and `marks` are the Result and Outlier columns. */
  method ReportLines(rows: seq<Row>, results: seq<Verdict>, marks: seq<string>, fmt: Formats)
    returns (lines: seq<string>)
    requires |results| == |rows| && |marks| == |rows|
    ensures |lines| == |rows| + 1
    ensures lines[0] == Title
    ensures forall i :: 0 <= i < |rows| ==>
      lines[i + 1] == ReportLine(rows[i], results[i], marks[i], fmt)
  {
    lines := [Title];
    var i := 0;
    while i < |rows|
      invariant 0 <= i <= |rows|
      invariant |lines| == i + 1
      invariant lines[0] == Title
      invariant forall k :: 0 <= k < i ==> lines[k + 1] == ReportLine(rows[k], results[k], marks[k], fmt)
    {
      lines := lines + [ReportLine(rows[i], results[i], marks[i], fmt)];
      i := i + 1;
    }
  }
}
