/** The layout both beans' `toString` methods use: `Name{f1=v1, f2='v2', ...}`,
    string fields in single quotes, int fields bare. */
module ObjectText {
  import opened Lang

  datatype FieldValue = Quoted(s: JString) | Number(n: Int32)

  datatype Field = Field(name: string, value: FieldValue)

  /** One field followed by the text after it. */
  function Emit(f: Field, rest: string): string {
    match f.value
    case Quoted(s) => f.name + ("='" + (Show(s) + ("'" + rest)))
    case Number(n) => f.name + ("=" + (IntToString(n) + rest))
  }

  /** The fields separated by ", ", then the closing brace. */
  function FieldsText(fs: seq<Field>): string
    requires |fs| > 0
  {
    Emit(fs[0], if |fs| == 1 then "}" else ", " + FieldsText(fs[1..]))
  }

  function Render(className: string, fs: seq<Field>): string
    requires |fs| > 0
  {
    className + "{" + FieldsText(fs)
  }

  /** Two field lists of the same names and kinds. */
  predicate SameShape(fs: seq<Field>, gs: seq<Field>) {
    |fs| == |gs| &&
    forall i :: 0 <= i < |fs| ==> fs[i].name == gs[i].name && fs[i].value.Quoted? == gs[i].value.Quoted?
  }

  predicate QuoteFree(fs: seq<Field>) {
    forall i :: 0 <= i < |fs| && fs[i].value.Quoted? ==> '\'' !in Show(fs[i].value.s)
  }

  /** What a reader of the text can tell apart: a null string field and the
      string "null" look the same. */
  predicate SameText(a: FieldValue, b: FieldValue) {
    match (a, b)
    case (Quoted(x), Quoted(y)) => Show(x) == Show(y)
    case (Number(m), Number(n)) => m == n
    case _ => false
  }

  lemma ReadEmit(f: Field, g: Field, rest1: string, rest2: string, d: char)
    requires f.name == g.name && f.value.Quoted? == g.value.Quoted?
    requires f.value.Quoted? ==> '\'' !in Show(f.value.s) && '\'' !in Show(g.value.s)
    requires f.value.Number? ==> d != '-' && !IsDigit(d)
    requires f.value.Number? ==> |rest1| > 0 && |rest2| > 0 && rest1[0] == d == rest2[0]
    requires Emit(f, rest1) == Emit(g, rest2)
    ensures SameText(f.value, g.value) && rest1 == rest2
  {
    match f.value
    case Quoted(x) =>
      var y := g.value.s;
      PrefixCancel(f.name, "='" + (Show(x) + ("'" + rest1)), "='" + (Show(y) + ("'" + rest2)));
      PrefixCancel("='", Show(x) + ("'" + rest1), Show(y) + ("'" + rest2));
      SplitAtDelimiter(Show(x), rest1, Show(y), rest2, '\'');
    case Number(m) =>
      var n := g.value.n;
      var a, b := IntToString(m), IntToString(n);
      PrefixCancel(f.name, "=" + (a + rest1), "=" + (b + rest2));
      PrefixCancel("=", a + rest1, b + rest2);
      assert rest1 == [d] + rest1[1..] && rest2 == [d] + rest2[1..];
      if d in a { IntToStringAlphabet(m, d); }
      if d in b { IntToStringAlphabet(n, d); }
      SplitAtDelimiter(a, rest1[1..], b, rest2[1..], d);
      IntToStringInjective(m, n);
  }

  lemma TailShape(fs: seq<Field>, gs: seq<Field>)
    requires |fs| > 0 && SameShape(fs, gs) && QuoteFree(fs) && QuoteFree(gs)
    ensures SameShape(fs[1..], gs[1..]) && QuoteFree(fs[1..]) && QuoteFree(gs[1..])
  {
    var ft, gt := fs[1..], gs[1..];
    forall i | 0 <= i < |ft| ensures ft[i] == fs[i + 1] && gt[i] == gs[i + 1] {
    }
  }

  /** The text of a field list already fixes the text of every field, provided
      no string field contains a single quote. */
  lemma {:induction false} FieldsTextDeterminesFields(fs: seq<Field>, gs: seq<Field>)
    requires |fs| > 0 && SameShape(fs, gs) && QuoteFree(fs) && QuoteFree(gs)
    requires FieldsText(fs) == FieldsText(gs)
    ensures forall i :: 0 <= i < |fs| ==> SameText(fs[i].value, gs[i].value)
  {
    assert fs[0].name == gs[0].name && fs[0].value.Quoted? == gs[0].value.Quoted?;
    if |fs| == 1 {
      ReadEmit(fs[0], gs[0], "}", "}", '}');
    } else {
      var ft, gt := fs[1..], gs[1..];
      var rest1, rest2 := ", " + FieldsText(ft), ", " + FieldsText(gt);
      assert FieldsText(fs) == Emit(fs[0], rest1);
      assert FieldsText(gs) == Emit(gs[0], rest2);
      ReadEmit(fs[0], gs[0], rest1, rest2, ',');
      PrefixCancel(", ", FieldsText(ft), FieldsText(gt));
      TailShape(fs, gs);
      FieldsTextDeterminesFields(ft, gt);
      forall i | 0 <= i < |fs| ensures SameText(fs[i].value, gs[i].value) {
        if i > 0 {
          assert fs[i] == ft[i - 1] && gs[i] == gt[i - 1];
        }
      }
    }
  }

  lemma RenderDeterminesFields(className: string, fs: seq<Field>, gs: seq<Field>)
    requires |fs| > 0 && SameShape(fs, gs) && QuoteFree(fs) && QuoteFree(gs)
    requires Render(className, fs) == Render(className, gs)
    ensures forall i :: 0 <= i < |fs| ==> SameText(fs[i].value, gs[i].value)
  {
    PrefixCancel(className + "{", FieldsText(fs), FieldsText(gs));
    FieldsTextDeterminesFields(fs, gs);
  }
}
