/**
 * The EFD-Contribuições reader: the text is cut into lines and every line into
 * `|`-separated fields; field 1 is the register tag. Registers 0000, C010/0140 and
 * D010 set the context; C100, C500, C600 and D100 each add one record. Nothing
 * else is looked at and nothing makes the reader fail.
 */
module SpedParser {
  import opened Wrappers
  import opened Strings
  import opened Numbers
  import opened Types

  /**
   * The context the reader carries from line to line: the entity identifier of the
   * last 0000 register, of the goods/energy branch (C010 or 0140) and of the
   * freight branch (D010).
   */
  datatype Context = Context(root: string, goods: string, freight: string)

  /** `p[i]`, where a field past the end of the line (JavaScript `undefined`) reads as "". */
  function Field(p: seq<string>, i: nat): (f: string)
    ensures i < |p| ==> f == p[i]
    ensures i >= |p| ==> f == ""
  {
    if i < |p| then p[i] else ""
  }

  /** The registers the reader acts on; every other tag is `Unrecognised`. */
  datatype Register =
    | Reg0000 | RegC010 | Reg0140 | RegD010
    | RegC100 | RegC500 | RegC600 | RegD100
    | Unrecognised
  {
    /** Registers that set a context slot. */
    predicate IsHeader() {
      Reg0000? || RegC010? || Reg0140? || RegD010?
    }

    /** Registers that add a record. */
    predicate IsDetail() {
      RegC100? || RegC500? || RegC600? || RegD100?
    }
  }

  /** The register a tag names; the comparison is exact (case and spaces count). */
  function RegisterOf(tag: string): (r: Register)
    ensures r == Unrecognised <==>
      tag != "0000" && tag != "C010" && tag != "0140" && tag != "D010" &&
      tag != "C100" && tag != "C500" && tag != "C600" && tag != "D100"
  {
    if tag == "0000" then Reg0000
    else if tag == "C010" then RegC010
    else if tag == "0140" then Reg0140
    else if tag == "D010" then RegD010
    else if tag == "C100" then RegC100
    else if tag == "C500" then RegC500
    else if tag == "C600" then RegC600
    else if tag == "D100" then RegD100
    else Unrecognised
  }

  /** Each register is named by exactly one tag. */
  lemma TagNames(tag: string)
    ensures RegisterOf(tag) == Reg0000 <==> tag == "0000"
    ensures RegisterOf(tag) == RegC010 <==> tag == "C010"
    ensures RegisterOf(tag) == Reg0140 <==> tag == "0140"
    ensures RegisterOf(tag) == RegD010 <==> tag == "D010"
    ensures RegisterOf(tag) == RegC100 <==> tag == "C100"
    ensures RegisterOf(tag) == RegC500 <==> tag == "C500"
    ensures RegisterOf(tag) == RegC600 <==> tag == "C600"
    ensures RegisterOf(tag) == RegD100 <==> tag == "D100"
  {
  }

  /** A line cut into its `|`-separated fields, with the register its field 1 names. */
  datatype Line = Line(reg: Register, fields: seq<string>)

  /**
   * `line.split('|')` and its field 1 as the tag. The fields join back into the line,
   * and a line the reader acts on has at least two fields, since a missing field 1
   * names no register.
   */
  function Tokenize(line: string): (l: Line)
    ensures |l.fields| >= 1 && Join(l.fields, '|') == line
    ensures l.reg != Unrecognised ==> |l.fields| >= 2
  {
    var p := Split(line, '|');
    JoinSplit(line, '|');
    Line(RegisterOf(Field(p, 1)), p)
  }

  /** Every line of the file, tokenized, in order. */
  function TokenizeAll(lines: seq<string>): (ls: seq<Line>)
    ensures |ls| == |lines|
    decreases |lines|
  {
    if lines == [] then [] else TokenizeAll(lines[..|lines| - 1]) + [Tokenize(lines[|lines| - 1])]
  }

  /**
   * A monetary field: `parseFloat(p[i]?.replace(',', '.') || '0')`. A missing or
   * empty field is 0; the first comma is the decimal separator.
   */
  function Amount(p: seq<string>, i: nat): (v: real)
    ensures Field(p, i) == "" ==> v == 0.0
  {
    var text := ReplaceFirst(Field(p, i), ',', '.');
    if text == "" then
      ParseFloatZero();
      ParseFloat("0").GetOr(0.0)
    else
      ParseFloat(text).GetOr(0.0)
  }

  /** The identifier goods and energy records take: the branch's, or the 0000 one when that is empty. */
  function GoodsId(ctx: Context): (r: string)
    ensures r == ctx.goods || r == ctx.root
    ensures ctx.goods != "" ==> r == ctx.goods
    ensures ctx.goods == "" ==> r == ctx.root
  {
    OrElse(ctx.goods, ctx.root)
  }

  /** The identifier freight records take: the freight branch's, or the 0000 one when that is empty. */
  function FreightId(ctx: Context): (r: string)
    ensures r == ctx.freight || r == ctx.root
    ensures ctx.freight != "" ==> r == ctx.freight
    ensures ctx.freight == "" ==> r == ctx.root
  {
    OrElse(ctx.freight, ctx.root)
  }

  /**
   * A goods document (C100): direction in field 2, date in 10, value in 12, ICMS base
   * and ICMS in 21 and 22, PIS and COFINS in 24 and 25. It takes the goods identifier
   * in force, and a line cut short before field 12 carries no amounts.
   */
  function C100Record(ctx: Context, p: seq<string>): (r: SpedC100)
    ensures r.cnpj == GoodsId(ctx) && r.dtDoc == Field(p, 10)
    ensures |p| <= 12 ==> r.vlDoc == 0.0 && r.vlBcIcms == 0.0 && r.vlIcms == 0.0 && r.vlPis == 0.0 && r.vlCofins == 0.0
  {
    SpedC100(GoodsId(ctx), Field(p, 10), ParseInt(Field(p, 2)),
             Amount(p, 12), Amount(p, 21), Amount(p, 22), Amount(p, 24), Amount(p, 25))
  }

  /**
   * An energy document (C500): date in field 10, value in 13, ICMS base and ICMS in 18
   * and 19, PIS and COFINS in 22 and 23. It takes the goods identifier in force, and a
   * line cut short before field 13 carries no amounts.
   */
  function C500Record(ctx: Context, p: seq<string>): (r: SpedC500)
    ensures r.cnpj == GoodsId(ctx) && r.dtDoc == Field(p, 10)
    ensures |p| <= 13 ==> r.vlDoc == 0.0 && r.vlBcIcms == 0.0 && r.vlIcms == 0.0 && r.vlPis == 0.0 && r.vlCofins == 0.0
  {
    SpedC500(GoodsId(ctx), Field(p, 10),
             Amount(p, 13), Amount(p, 18), Amount(p, 19), Amount(p, 22), Amount(p, 23))
  }

  /**
   * An energy summary (C600): date in field 5, value in 7, PIS and COFINS in 22 and 23.
   * It carries no ICMS breakdown: base and ICMS are 0 whatever the line holds. It takes
   * the goods identifier in force.
   */
  function C600Record(ctx: Context, p: seq<string>): (r: SpedC500)
    ensures r.cnpj == GoodsId(ctx) && r.dtDoc == Field(p, 5)
    ensures r.vlBcIcms == 0.0 && r.vlIcms == 0.0
    ensures |p| <= 7 ==> r.vlDoc == 0.0 && r.vlPis == 0.0 && r.vlCofins == 0.0
  {
    SpedC500(GoodsId(ctx), Field(p, 5),
             Amount(p, 7), 0.0, 0.0, Amount(p, 22), Amount(p, 23))
  }

  /**
   * A freight document (D100): direction in field 2, date in 10, value in 13, ICMS base
   * and ICMS in 18 and 19, PIS and COFINS in 21 and 22. It takes the freight identifier
   * in force, not the goods one, and a line cut short before field 13 carries no amounts.
   */
  function D100Record(ctx: Context, p: seq<string>): (r: SpedD100)
    ensures r.cnpj == FreightId(ctx) && r.dtDoc == Field(p, 10)
    ensures |p| <= 13 ==> r.vlDoc == 0.0 && r.vlBcIcms == 0.0 && r.vlIcms == 0.0 && r.vlPis == 0.0 && r.vlCofins == 0.0
  {
    SpedC100(FreightId(ctx), Field(p, 10), ParseInt(Field(p, 2)),
             Amount(p, 13), Amount(p, 18), Amount(p, 19), Amount(p, 21), Amount(p, 22))
  }


  /**
   * The context after a line of register `reg`. Each slot changes only on its own
   * header, so a D010 never touches the goods slot, a C010/0140 never touches the
   * freight slot, and a later 0000 clears neither.
   */
  function StepContext(ctx: Context, line: Line): (next: Context)
    ensures line.reg != Reg0000 ==> next.root == ctx.root
    ensures line.reg != RegC010 && line.reg != Reg0140 ==> next.goods == ctx.goods
    ensures line.reg != RegD010 ==> next.freight == ctx.freight
    ensures line.reg == Reg0000 ==> next.root == Field(line.fields, 7)
    ensures line.reg == RegC010 || line.reg == Reg0140 ==> next.goods == OrElse(Field(line.fields, 2), ctx.root)
    ensures line.reg == RegD010 ==> next.freight == OrElse(Field(line.fields, 2), ctx.root)
  {
    var p := line.fields;
    match line.reg
    case Reg0000 => ctx.(root := Field(p, 7))
    case RegC010 => ctx.(goods := OrElse(Field(p, 2), ctx.root))
    case Reg0140 => ctx.(goods := OrElse(Field(p, 2), ctx.root))
    case RegD010 => ctx.(freight := OrElse(Field(p, 2), ctx.root))
    case _ => ctx
  }

  /** What the reader keeps of a detail line: the context in force and the line's fields. */
  datatype Source = Source(ctx: Context, fields: seq<string>)

  /** The detail lines read so far, one sequence per category, in file order. */
  datatype Found = Found(c100: seq<Source>, c500: seq<Source>, c600: seq<Source>, d100: seq<Source>)
  {
    /** The sequence a detail register adds to; other registers have none. */
    function Of(reg: Register): seq<Source> {
      match reg
      case RegC100 => c100
      case RegC500 => c500
      case RegC600 => c600
      case RegD100 => d100
      case _ => []
    }

    function Total(): nat {
      |c100| + |c500| + |c600| + |d100|
    }
  }

  datatype ParserState = ParserState(ctx: Context, found: Found)

  const InitialState := ParserState(Context("", "", ""), Found([], [], [], []))

  /** `found` with `src` appended to the category of `reg`; any other register adds nothing. */
  function Keep(found: Found, reg: Register, src: Source): Found {
    match reg
    case RegC100 => found.(c100 := found.c100 + [src])
    case RegC500 => found.(c500 := found.c500 + [src])
    case RegC600 => found.(c600 := found.c600 + [src])
    case RegD100 => found.(d100 := found.d100 + [src])
    case _ => found
  }

  /**
   * One line: a header updates its context slot; a detail line is kept, with the
   * context in force, at the end of its own category and nowhere else.
   */
  function Step(st: ParserState, line: Line): (next: ParserState)
    ensures line.reg == Unrecognised ==> next == st
    ensures !line.reg.IsHeader() ==> next.ctx == st.ctx
    ensures next.found.Total() == st.found.Total() + (if line.reg.IsDetail() then 1 else 0)
  {
    ParserState(StepContext(st.ctx, line), Keep(st.found, line.reg, Source(st.ctx, line.fields)))
  }

  /** A detail line is kept, with the context in force, at the end of its own category and nowhere else. */
  lemma StepKeeps(st: ParserState, line: Line, reg: Register)
    requires reg.IsDetail()
    ensures Step(st, line).found.Of(reg) ==
      st.found.Of(reg) + (if line.reg == reg then [Source(st.ctx, line.fields)] else [])
  {
  }

  /** The reader's state after the given lines, one `Step` per line in order; no line keeps more than one entry. */
  function ParseLines(ls: seq<Line>): (st: ParserState)
    ensures st.found.Total() <= |ls|
    decreases |ls|
  {
    if ls == [] then InitialState
    else Step(ParseLines(ls[..|ls| - 1]), ls[|ls| - 1])
  }

  function DecodeC100(s: seq<Source>): seq<SpedC100> {
    seq(|s|, k requires 0 <= k < |s| => C100Record(s[k].ctx, s[k].fields))
  }

  function DecodeC500(s: seq<Source>): seq<SpedC500> {
    seq(|s|, k requires 0 <= k < |s| => C500Record(s[k].ctx, s[k].fields))
  }

  function DecodeC600(s: seq<Source>): seq<SpedC500> {
    seq(|s|, k requires 0 <= k < |s| => C600Record(s[k].ctx, s[k].fields))
  }

  function DecodeD100(s: seq<Source>): seq<SpedD100> {
    seq(|s|, k requires 0 <= k < |s| => D100Record(s[k].ctx, s[k].fields))
  }

  /** The records the kept lines stand for, each built from its own line and context. */
  function Decode(found: Found): SpedData {
    SpedData(DecodeC100(found.c100), DecodeC500(found.c500), DecodeC600(found.c600), DecodeD100(found.d100))
  }

  /** The records after a line: a detail line appends its own record, built with the context in force. */
  function Emit(ctx: Context, line: Line, data: SpedData): (r: SpedData)
    ensures data.c100 <= r.c100 && data.c500 <= r.c500 && data.c600 <= r.c600 && data.d100 <= r.d100
    ensures |r.c100| == |data.c100| + (if line.reg == RegC100 then 1 else 0)
    ensures |r.c500| == |data.c500| + (if line.reg == RegC500 then 1 else 0)
    ensures |r.c600| == |data.c600| + (if line.reg == RegC600 then 1 else 0)
    ensures |r.d100| == |data.d100| + (if line.reg == RegD100 then 1 else 0)
  {
    var p := line.fields;
    match line.reg
    case RegC100 => data.(c100 := data.c100 + [C100Record(ctx, p)])
    case RegC500 => data.(c500 := data.c500 + [C500Record(ctx, p)])
    case RegC600 => data.(c600 := data.c600 + [C600Record(ctx, p)])
    case RegD100 => data.(d100 := data.d100 + [D100Record(ctx, p)])
    case _ => data
  }

  lemma DecodeStep(st: ParserState, line: Line)
    ensures Decode(Step(st, line).found) == Emit(st.ctx, line, Decode(st.found))
  {
    var f := st.found;
    var src := Source(st.ctx, line.fields);
    assert Step(st, line).found == Keep(f, line.reg, src);
    match line.reg
    case RegC100 =>
      DecodeC100Snoc(f.c100, src);
      assert Keep(f, line.reg, src) == f.(c100 := f.c100 + [src]);
    case RegC500 =>
      DecodeC500Snoc(f.c500, src);
      assert Keep(f, line.reg, src) == f.(c500 := f.c500 + [src]);
    case RegC600 =>
      DecodeC600Snoc(f.c600, src);
      assert Keep(f, line.reg, src) == f.(c600 := f.c600 + [src]);
    case RegD100 =>
      DecodeD100Snoc(f.d100, src);
      assert Keep(f, line.reg, src) == f.(d100 := f.d100 + [src]);
    case _ =>
      assert Keep(f, line.reg, src) == f;
  }

  /** Decoding one more source appends that source's record. */
  lemma DecodeC100Snoc(s: seq<Source>, src: Source)
    ensures DecodeC100(s + [src]) == DecodeC100(s) + [C100Record(src.ctx, src.fields)]
  {
    assert forall k :: 0 <= k < |s| ==> (s + [src])[k] == s[k];
  }

  lemma DecodeC500Snoc(s: seq<Source>, src: Source)
    ensures DecodeC500(s + [src]) == DecodeC500(s) + [C500Record(src.ctx, src.fields)]
  {
    assert forall k :: 0 <= k < |s| ==> (s + [src])[k] == s[k];
  }

  lemma DecodeC600Snoc(s: seq<Source>, src: Source)
    ensures DecodeC600(s + [src]) == DecodeC600(s) + [C600Record(src.ctx, src.fields)]
  {
    assert forall k :: 0 <= k < |s| ==> (s + [src])[k] == s[k];
  }

  lemma DecodeD100Snoc(s: seq<Source>, src: Source)
    ensures DecodeD100(s + [src]) == DecodeD100(s) + [D100Record(src.ctx, src.fields)]
  {
    assert forall k :: 0 <= k < |s| ==> (s + [src])[k] == s[k];
  }

  /** The four record sequences read from a whole file; there are never more records than lines. */
  function Parse(text: string): (d: SpedData)
    ensures |d.c100| + |d.c500| + |d.c600| + |d.d100| <= |Split(text, '\n')|
  {
    Decode(ParseLines(TokenizeAll(Split(text, '\n'))).found)
  }

  /** Reading one more line is one more `Step`. */
  lemma ParseLinesSnoc(ls: seq<Line>, line: Line)
    ensures ParseLines(ls + [line]) == Step(ParseLines(ls), line)
  {
    assert (ls + [line])[..|ls|] == ls;
  }

  /**
   * The reader as a loop: three context variables and four sequences that only grow.
   * It reads exactly `Parse`, one record per detail line, and C600 records carry no ICMS.
   */
  method ParseSpedFile(text: string) returns (data: SpedData)
    ensures data == Parse(text)
    ensures |data.c100| == CountTag(TokenizeAll(Split(text, '\n')), RegC100)
    ensures |data.c500| == CountTag(TokenizeAll(Split(text, '\n')), RegC500)
    ensures |data.c600| == CountTag(TokenizeAll(Split(text, '\n')), RegC600)
    ensures |data.d100| == CountTag(TokenizeAll(Split(text, '\n')), RegD100)
    ensures forall j :: 0 <= j < |data.c600| ==> data.c600[j].vlBcIcms == 0.0 && data.c600[j].vlIcms == 0.0
  {
    var lines := Split(text, '\n');
    var c100: seq<SpedC100> := [];
    var c500: seq<SpedC500> := [];
    var c600: seq<SpedC500> := [];
    var d100: seq<SpedD100> := [];
    var currentC010Cnpj, currentD010Cnpj, reg0000Cnpj := "", "", "";
    for i := 0 to |lines|
      invariant ParseLines(TokenizeAll(lines[..i])).ctx == Context(reg0000Cnpj, currentC010Cnpj, currentD010Cnpj)
      invariant Decode(ParseLines(TokenizeAll(lines[..i])).found) == SpedData(c100, c500, c600, d100)
    {
      var ctx := Context(reg0000Cnpj, currentC010Cnpj, currentD010Cnpj);
      var read := SpedData(c100, c500, c600, d100);
      LoopStep(lines, i, ctx, read);
      ctx, read := ReadLine(lines[i], ctx, read);
      reg0000Cnpj, currentC010Cnpj, currentD010Cnpj := ctx.root, ctx.goods, ctx.freight;
      c100, c500, c600, d100 := read.c100, read.c500, read.c600, read.d100;
    }
    assert lines[..|lines|] == lines;
    data := SpedData(c100, c500, c600, d100);
    ParseCounts(text);
    C600HasNoIcms(text);
  }

  /**
   * One turn of the reader's loop: the header lines move the context, and a detail
   * line appends its record, built with the context in force, to its category.
   */
  method ReadLine(line: string, ctx: Context, data: SpedData) returns (next: Context, out: SpedData)
    ensures next == StepContext(ctx, Tokenize(line))
    ensures out == Emit(ctx, Tokenize(line), data)
  {
    var reg0000Cnpj, currentC010Cnpj, currentD010Cnpj := ctx.root, ctx.goods, ctx.freight;
    var c100, c500, c600, d100 := data.c100, data.c500, data.c600, data.d100;
    var p := Split(line, '|');
    var tag := Field(p, 1);
    TagNames(tag);
    assert Tokenize(line).reg == RegisterOf(tag) && Tokenize(line).fields == p;
    if tag == "0000" {
      reg0000Cnpj := Field(p, 7);
    }
    if tag == "C010" || tag == "0140" {
      currentC010Cnpj := OrElse(Field(p, 2), reg0000Cnpj);
    }
    if tag == "D010" {
      currentD010Cnpj := OrElse(Field(p, 2), reg0000Cnpj);
    }
    assert Context(reg0000Cnpj, currentC010Cnpj, currentD010Cnpj) == StepContext(ctx, Tokenize(line));
    if tag == "C100" {
      c100 := c100 + [SpedC100(OrElse(currentC010Cnpj, reg0000Cnpj), Field(p, 10), ParseInt(Field(p, 2)),
                      Amount(p, 12), Amount(p, 21), Amount(p, 22), Amount(p, 24), Amount(p, 25))];
    }
    assert c100 == Emit(ctx, Tokenize(line), data).c100;
    if tag == "C500" {
      c500 := c500 + [SpedC500(OrElse(currentC010Cnpj, reg0000Cnpj), Field(p, 10),
                      Amount(p, 13), Amount(p, 18), Amount(p, 19), Amount(p, 22), Amount(p, 23))];
    }
    assert c500 == Emit(ctx, Tokenize(line), data).c500;
    if tag == "C600" {
      c600 := c600 + [SpedC500(OrElse(currentC010Cnpj, reg0000Cnpj), Field(p, 5),
                      Amount(p, 7), 0.0, 0.0, Amount(p, 22), Amount(p, 23))];
    }
    assert c600 == Emit(ctx, Tokenize(line), data).c600;
    if tag == "D100" {
      d100 := d100 + [SpedC100(OrElse(currentD010Cnpj, reg0000Cnpj), Field(p, 10), ParseInt(Field(p, 2)),
                      Amount(p, 13), Amount(p, 18), Amount(p, 19), Amount(p, 21), Amount(p, 22))];
    }
    assert d100 == Emit(ctx, Tokenize(line), data).d100;
    next := Context(reg0000Cnpj, currentC010Cnpj, currentD010Cnpj);
    out := SpedData(c100, c500, c600, d100);
  }

  /** A file yields exactly one record per line of each detail register. */
  lemma ParseCounts(text: string)
    ensures |Parse(text).c100| == CountTag(TokenizeAll(Split(text, '\n')), RegC100)
    ensures |Parse(text).c500| == CountTag(TokenizeAll(Split(text, '\n')), RegC500)
    ensures |Parse(text).c600| == CountTag(TokenizeAll(Split(text, '\n')), RegC600)
    ensures |Parse(text).d100| == CountTag(TokenizeAll(Split(text, '\n')), RegD100)
  {
    LineCounts(TokenizeAll(Split(text, '\n')));
  }

  /** Decoding keeps one record per stored source line, category by category. */
  lemma LineCounts(ls: seq<Line>)
    ensures |Decode(ParseLines(ls).found).c100| == CountTag(ls, RegC100)
    ensures |Decode(ParseLines(ls).found).c500| == CountTag(ls, RegC500)
    ensures |Decode(ParseLines(ls).found).c600| == CountTag(ls, RegC600)
    ensures |Decode(ParseLines(ls).found).d100| == CountTag(ls, RegD100)
  {
    var found := ParseLines(ls).found;
    SourceCount(ls, RegC100);
    SourceCount(ls, RegC500);
    SourceCount(ls, RegC600);
    SourceCount(ls, RegD100);
    DecodeLengths(found);
  }

  lemma DecodeLengths(found: Found)
    ensures |Decode(found).c100| == |found.Of(RegC100)|
    ensures |Decode(found).c500| == |found.Of(RegC500)|
    ensures |Decode(found).c600| == |found.Of(RegC600)|
    ensures |Decode(found).d100| == |found.Of(RegD100)|
  {
  }

  /** Energy records from C600 never carry an ICMS base or ICMS value. */
  lemma C600HasNoIcms(text: string)
    ensures forall j :: 0 <= j < |Parse(text).c600| ==> Parse(text).c600[j].vlBcIcms == 0.0 && Parse(text).c600[j].vlIcms == 0.0
  {
  }

  /** The state after line `i` of `lines` is one `Step` past the state before it. */
  lemma ReadOneMore(lines: seq<string>, i: nat)
    requires i < |lines|
    ensures ParseLines(TokenizeAll(lines[..i + 1])) == Step(ParseLines(TokenizeAll(lines[..i])), Tokenize(lines[i]))
  {
    assert lines[..i + 1][..i] == lines[..i];
    ParseLinesSnoc(TokenizeAll(lines[..i]), Tokenize(lines[i]));
  }

  /** The loop's step: the context and the records after line `i`, from those before it. */
  lemma LoopStep(lines: seq<string>, i: nat, ctx: Context, before: SpedData)
    requires i < |lines|
    requires ParseLines(TokenizeAll(lines[..i])).ctx == ctx
    requires Decode(ParseLines(TokenizeAll(lines[..i])).found) == before
    ensures ParseLines(TokenizeAll(lines[..i + 1])).ctx == StepContext(ctx, Tokenize(lines[i]))
    ensures Decode(ParseLines(TokenizeAll(lines[..i + 1])).found) == Emit(ctx, Tokenize(lines[i]), before)
  {
    ReadOneMore(lines, i);
    DecodeStep(ParseLines(TokenizeAll(lines[..i])), Tokenize(lines[i]));
  }

  /** The number of lines of register `reg`. */
  function CountTag(ls: seq<Line>, reg: Register): (n: nat)
    ensures n <= |ls|
    decreases |ls|
  {
    if ls == [] then 0
    else CountTag(ls[..|ls| - 1], reg) + (if ls[|ls| - 1].reg == reg then 1 else 0)
  }

  /** Each category keeps exactly one entry per line of its register. */
  lemma {:induction false} SourceCount(ls: seq<Line>, reg: Register)
    requires reg.IsDetail()
    ensures |ParseLines(ls).found.Of(reg)| == CountTag(ls, reg)
    decreases |ls|
  {
    if ls != [] {
      SourceCount(ls[..|ls| - 1], reg);
      StepKeeps(ParseLines(ls[..|ls| - 1]), ls[|ls| - 1], reg);
    }
  }

  /** Reading more lines only appends: what was read from a prefix stays, in the same order. */
  lemma {:induction false} ParsePrefix(ls: seq<Line>, k: nat, reg: Register)
    requires k <= |ls| && reg.IsDetail()
    ensures ParseLines(ls[..k]).found.Of(reg) <= ParseLines(ls).found.Of(reg)
    decreases |ls|
  {
    if k == |ls| {
      assert ls[..k] == ls;
    } else {
      var prev := ls[..|ls| - 1];
      ParsePrefix(prev, k, reg);
      StepKeeps(ParseLines(prev), ls[|ls| - 1], reg);
      assert prev[..k] == ls[..k];
    }
  }

  /**
   * Line `k` is the origin of entry `j` of category `reg`: a line of that register with
   * exactly `j` such lines before it, kept with the context in force before it.
   */
  predicate SourceAt(ls: seq<Line>, reg: Register, j: nat, k: nat) {
    k < |ls| && ls[k].reg == reg && CountTag(ls[..k], reg) == j &&
    j < |ParseLines(ls).found.Of(reg)| &&
    ParseLines(ls).found.Of(reg)[j] == Source(ParseLines(ls[..k]).ctx, ls[k].fields)
  }

  /** Every entry of a category has an origin line. */
  lemma {:induction false} SourceOrigin(ls: seq<Line>, reg: Register, j: nat)
    requires reg.IsDetail() && j < |ParseLines(ls).found.Of(reg)|
    ensures exists k :: SourceAt(ls, reg, j, k)
    decreases |ls|
  {
    assert ls != [];
    var n := |ls|;
    var prev := ls[..n - 1];
    assert ParseLines(ls) == Step(ParseLines(prev), ls[n - 1]);
    StepKeeps(ParseLines(prev), ls[n - 1], reg);
    var part := ParseLines(prev).found.Of(reg);
    if j < |part| {
      SourceOrigin(prev, reg, j);
      var k: nat :| SourceAt(prev, reg, j, k);
      assert SourceAt(ls, reg, j, k) by {
        assert prev[..k] == ls[..k] && prev[k] == ls[k];
        assert ParseLines(ls).found.Of(reg)[j] == part[j];
      }
    } else {
      assert SourceAt(ls, reg, j, n - 1) by {
        SourceCount(prev, reg);
        assert ls[..n - 1] == prev;
      }
    }
  }

  /**
   * The j-th C100 record is the one built from the C100 line that has exactly j C100
   * lines before it, with the context in force before that line.
   */
  lemma C100Origin(ls: seq<Line>, j: nat)
    requires j < |Decode(ParseLines(ls).found).c100|
    ensures exists k :: (0 <= k < |ls| && ls[k].reg == RegC100 && CountTag(ls[..k], RegC100) == j &&
                         Decode(ParseLines(ls).found).c100[j] == C100Record(ParseLines(ls[..k]).ctx, ls[k].fields))
  {
    var f := ParseLines(ls).found;
    assert |Decode(f).c100| == |f.c100| == |f.Of(RegC100)|;
    SourceOrigin(ls, RegC100, j);
    var k: nat :| SourceAt(ls, RegC100, j, k);
    assert Decode(f).c100[j] == C100Record(f.c100[j].ctx, f.c100[j].fields);
  }

  /** Lines of any other register change nothing: the reader skips them. */
  lemma {:induction false} SkipsOtherRegisters(pre: seq<Line>, other: seq<Line>)
    requires forall k :: 0 <= k < |other| ==> other[k].reg == Unrecognised
    ensures ParseLines(pre + other) == ParseLines(pre)
    decreases |other|
  {
    if other == [] {
      assert pre + other == pre;
    } else {
      var m := |other|;
      assert pre + other == (pre + other[..m - 1]) + [other[m - 1]];
      SkipsOtherRegisters(pre, other[..m - 1]);
      ParseLinesSnoc(pre + other[..m - 1], other[m - 1]);
    }
  }

  /** What follows depends only on the state reached, not on the lines that reached it. */
  lemma {:induction false} SameStateSameFuture(a: seq<Line>, b: seq<Line>, rest: seq<Line>)
    requires ParseLines(a) == ParseLines(b)
    ensures ParseLines(a + rest) == ParseLines(b + rest)
    decreases |rest|
  {
    if rest == [] {
      assert a + rest == a && b + rest == b;
    } else {
      var m := |rest|;
      assert a + rest == (a + rest[..m - 1]) + [rest[m - 1]];
      assert b + rest == (b + rest[..m - 1]) + [rest[m - 1]];
      SameStateSameFuture(a, b, rest[..m - 1]);
      ParseLinesSnoc(a + rest[..m - 1], rest[m - 1]);
      ParseLinesSnoc(b + rest[..m - 1], rest[m - 1]);
    }
  }

  /** Removing lines of unknown registers anywhere in a file does not change what is read. */
  lemma DropOtherRegisters(pre: seq<Line>, other: seq<Line>, post: seq<Line>)
    requires forall k :: 0 <= k < |other| ==> other[k].reg == Unrecognised
    ensures ParseLines(pre + other + post) == ParseLines(pre + post)
  {
    SkipsOtherRegisters(pre, other);
    SameStateSameFuture(pre + other, pre, post);
  }

  /** Every entry of `s` from position `from` on was kept under context `ctx`. */
  predicate AllUnderFrom(s: seq<Source>, from: nat, ctx: Context) {
    forall k :: from <= k < |s| ==> s[k].ctx == ctx
  }

  /**
   * Lines that open no scope (no 0000, C010, 0140 or D010) leave the context as it
   * was, and every entry they add is kept under that context.
   */
  lemma {:induction false} DetailsKeepContext(pre: seq<Line>, rest: seq<Line>, reg: Register)
    requires reg.IsDetail()
    requires forall k :: 0 <= k < |rest| ==> !rest[k].reg.IsHeader()
    ensures ParseLines(pre + rest).ctx == ParseLines(pre).ctx
    ensures ParseLines(pre).found.Of(reg) <= ParseLines(pre + rest).found.Of(reg)
    ensures AllUnderFrom(ParseLines(pre + rest).found.Of(reg), |ParseLines(pre).found.Of(reg)|, ParseLines(pre).ctx)
    decreases |rest|
  {
    if rest == [] {
      assert pre + rest == pre;
    } else {
      var m := |rest|;
      var init := rest[..m - 1];
      var line := rest[m - 1];
      assert pre + rest == (pre + init) + [line];
      DetailsKeepContext(pre, init, reg);
      ParseLinesSnoc(pre + init, line);
      StepKeeps(ParseLines(pre + init), line, reg);
      var c := ParseLines(pre).ctx;
      var start := ParseLines(pre).found.Of(reg);
      var mid := ParseLines(pre + init).found.Of(reg);
      var last := ParseLines(pre + rest).found.Of(reg);
      assert ParseLines(pre + init).ctx == c;
      assert last == mid + (if line.reg == reg then [Source(c, line.fields)] else []);
      forall k | |start| <= k < |last|
        ensures last[k].ctx == c
      {
        if k < |mid| {
          assert last[k] == mid[k];
        }
      }
    }
  }

  /** The identifiers every record of `data` carries. */
  predicate AllCarry(data: SpedData, goodsId: string, freightId: string) {
    (forall j :: 0 <= j < |data.c100| ==> data.c100[j].cnpj == goodsId) &&
    (forall j :: 0 <= j < |data.c500| ==> data.c500[j].cnpj == goodsId) &&
    (forall j :: 0 <= j < |data.c600| ==> data.c600[j].cnpj == goodsId) &&
    (forall j :: 0 <= j < |data.d100| ==> data.d100[j].cnpj == freightId)
  }

  /** Entries all kept under one context decode to records carrying that context's identifiers. */
  lemma DecodeCarries(f: Found, c: Context)
    requires AllUnderFrom(f.c100, 0, c) && AllUnderFrom(f.c500, 0, c)
    requires AllUnderFrom(f.c600, 0, c) && AllUnderFrom(f.d100, 0, c)
    ensures AllCarry(Decode(f), GoodsId(c), FreightId(c))
  {
  }

  /**
   * When every line after `pre` is a detail or an unknown register, every record read
   * from them carries the identifiers in force at the end of `pre`.
   */
  lemma DetailsCarryIdentifier(pre: seq<Line>, rest: seq<Line>)
    requires ParseLines(pre).found == Found([], [], [], [])
    requires forall k :: 0 <= k < |rest| ==> !rest[k].reg.IsHeader()
    ensures AllCarry(Decode(ParseLines(pre + rest).found),
                     GoodsId(ParseLines(pre).ctx), FreightId(ParseLines(pre).ctx))
  {
    DetailsKeepContext(pre, rest, RegC100);
    DetailsKeepContext(pre, rest, RegC500);
    DetailsKeepContext(pre, rest, RegC600);
    DetailsKeepContext(pre, rest, RegD100);
    DecodeCarries(ParseLines(pre + rest).found, ParseLines(pre).ctx);
  }

  /** Records read before any header at all carry the empty identifier. */
  lemma NoHeaderNoIdentifier(ls: seq<Line>)
    requires forall k :: 0 <= k < |ls| ==> !ls[k].reg.IsHeader()
    ensures AllCarry(Decode(ParseLines(ls).found), "", "")
  {
    assert [] + ls == ls;
    DetailsCarryIdentifier([], ls);
  }

  /** With only a 0000 header before them, records carry that header's field 7. */
  lemma RootHeaderIdentifier(header: Line, rest: seq<Line>)
    requires header.reg == Reg0000
    requires forall k :: 0 <= k < |rest| ==> !rest[k].reg.IsHeader()
    ensures AllCarry(Decode(ParseLines([header] + rest).found), Field(header.fields, 7), Field(header.fields, 7))
  {
    ParseLinesSnoc([], header);
    assert [] + [header] == [header];
    DetailsCarryIdentifier([header], rest);
  }

  /**
   * A C010 or 0140 header with its own identifier and no 0000 before it: goods and
   * energy records after it carry that identifier, and freight records carry "".
   */
  lemma BranchHeaderIdentifier(header: Line, rest: seq<Line>)
    requires header.reg == RegC010 || header.reg == Reg0140
    requires Field(header.fields, 2) != ""
    requires forall k :: 0 <= k < |rest| ==> !rest[k].reg.IsHeader()
    ensures AllCarry(Decode(ParseLines([header] + rest).found), Field(header.fields, 2), "")
  {
    ParseLinesSnoc([], header);
    assert [] + [header] == [header];
    DetailsCarryIdentifier([header], rest);
  }

  /**
   * A 0000 header and then a C010 or 0140 with an empty identifier: goods and energy
   * records fall back to the 0000 identifier.
   */
  lemma BranchFallsBackToRoot(root: Line, branch: Line, rest: seq<Line>)
    requires root.reg == Reg0000
    requires branch.reg == RegC010 || branch.reg == Reg0140
    requires Field(branch.fields, 2) == ""
    requires forall k :: 0 <= k < |rest| ==> !rest[k].reg.IsHeader()
    ensures AllCarry(Decode(ParseLines([root, branch] + rest).found), Field(root.fields, 7), Field(root.fields, 7))
  {
    var id := Field(root.fields, 7);
    RootThenBranch(root, branch);
    assert GoodsId(Context(id, OrElse("", id), "")) == id;
    DetailsCarryIdentifier([root, branch], rest);
  }

  /** The state after a 0000 line followed by a C010/0140 line. */
  lemma RootThenBranch(root: Line, branch: Line)
    requires root.reg == Reg0000
    requires branch.reg == RegC010 || branch.reg == Reg0140
    ensures ParseLines([root, branch]) ==
      ParserState(Context(Field(root.fields, 7), OrElse(Field(branch.fields, 2), Field(root.fields, 7)), ""),
                  Found([], [], [], []))
  {
    ParseLinesSnoc([], root);
    assert [] + [root] == [root];
    ParseLinesSnoc([root], branch);
    assert [root] + [branch] == [root, branch];
  }

  /** A field written with a decimal comma, such as "1234,56", reads as its exact decimal value. */
  lemma AmountDecimalComma(p: seq<string>, i: nat, whole: string, frac: string)
    requires i < |p| && p[i] == whole + "," + frac
    requires AllDigits(whole) && AllDigits(frac) && whole != []
    ensures Amount(p, i) == DecimalValue(whole, frac)
  {
    forall k | 0 <= k < |whole|
      ensures whole[k] != ','
    {
      assert IsDigit(whole[k]);
    }
    ReplaceFirstAt(whole, frac, ',', '.');
    ParseFloatDecimal(whole, frac, "");
    assert whole + "." + frac + "" == whole + "." + frac;
  }

  /** The field "1234,56" reads as 1234.56. */
  lemma DecimalCommaExample()
    ensures Amount(["1234,56"], 0) == 1234.56
  {
    assert "1234,56" == "1234" + "," + "56";
    AmountDecimalComma(["1234,56"], 0, "1234", "56");
    DecimalExample();
  }

  lemma DecimalExample()
    ensures DecimalValue("1234", "56") == 1234.56
  {
    assert "1234"[..3] == "123" && "123"[..2] == "12" && "12"[..1] == "1" && "1"[..0] == "";
    assert DigitsValue("1") == 1;
    assert DigitsValue("12") == 12;
    assert DigitsValue("123") == 123;
    assert DigitsValue("1234") == 1234;
    assert "56"[..1] == "5" && "5"[..0] == "";
    assert DigitsValue("5") == 5;
    assert DigitsValue("56") == 56;
    assert Pow10(2) == 100;
  }

  /** A direction field of digits, such as "0" or "1", reads as that number. */
  lemma DirectionDigits(ctx: Context, p: seq<string>)
    requires AllDigits(Field(p, 2)) && Field(p, 2) != ""
    ensures C100Record(ctx, p).indOper == Some(DigitsValue(Field(p, 2)) as int)
    ensures D100Record(ctx, p).indOper == Some(DigitsValue(Field(p, 2)) as int)
  {
    ParseIntDigits(Field(p, 2), "");
    assert Field(p, 2) + "" == Field(p, 2);
  }
}
