/** The text handling of SqlExecutionService: the effective data-source name,
    the preparation of an uploaded script, the PL/SQL heuristic and the split
    of a plain script at the semicolons that lie outside single quotes. */
module ScriptText {
  import opened Lang

  /** The name used when none is given. */
  const PrimaryName: string := "primary"

  /** The byte order mark a script may start with. */
  const Bom: char := '\U{FEFF}'

  /** The data source the scripts run on: "primary" when the given name is null
      or blank, otherwise the name lower-cased (and not trimmed): a lower-case
      name of the same length that differs from the given one only in case. */
  function EffectiveName(dataSourceName: JString): (r: string)
    ensures dataSourceName == Null || Trim(dataSourceName.value) == [] ==> r == PrimaryName
    ensures dataSourceName.Str? && Trim(dataSourceName.value) != [] ==>
      && |r| == |dataSourceName.value|
      && ToLowerCase(r) == r
      && ToUpperCase(r) == ToUpperCase(dataSourceName.value)
  {
    if dataSourceName == Null || Trim(dataSourceName.value) == [] then PrimaryName
    else
      LowerIdempotent(dataSourceName.value);
      UpperOfLower(dataSourceName.value);
      ToLowerCase(dataSourceName.value)
  }

  /** Lower-casing preserves the characters at or below U+0020. */
  lemma LowerKeepsBlank(s: string)
    ensures (Trim(ToLowerCase(s)) == []) == (Trim(s) == [])
  {
    var t := ToLowerCase(s);
    assert forall i :: 0 <= i < |s| ==> (t[i] <= ' ' <==> s[i] <= ' ');
    TrimEmpty(s);
    TrimEmpty(t);
  }

  /** Resolving an effective name again changes nothing. */
  lemma EffectiveNameIdempotent(dataSourceName: JString)
    ensures EffectiveName(Str(EffectiveName(dataSourceName))) == EffectiveName(dataSourceName)
  {
    if dataSourceName.Str? && Trim(dataSourceName.value) != [] {
      LowerKeepsBlank(dataSourceName.value);
      LowerIdempotent(dataSourceName.value);
    } else {
      PrimaryIsLower();
    }
  }

  lemma PrimaryIsLower()
    ensures Trim(PrimaryName) != [] && ToLowerCase(PrimaryName) == PrimaryName
  {
    assert PrimaryName[0] > ' ';
    TrimEmpty(PrimaryName);
    var l := ToLowerCase(PrimaryName);
    assert forall i :: 0 <= i < |PrimaryName| ==> l[i] == PrimaryName[i];
  }

  /** The script text that is executed: a leading byte order mark removed, then
      the whole text trimmed. */
  function Prepare(raw: string): (c: string)
    ensures Trim(c) == c
  {
    var s := if StartsWith(raw, [Bom]) then raw[1..] else raw;
    TrimIdempotent(s);
    Trim(s)
  }

  /** The executed text is the script after at most one leading byte order
      mark, with only characters at or below U+0020 removed from its two ends. */
  lemma PrepareStrips(raw: string)
    ensures var body := if StartsWith(raw, [Bom]) then raw[1..] else raw;
      exists k :: StrippedAt(body, Prepare(raw), k)
  {
    var body := if StartsWith(raw, [Bom]) then raw[1..] else raw;
    assert Prepare(raw) == Trim(body);
    TrimInfix(body);
  }

  /** The heuristic for running a script as one block: it mentions DECLARE or
      BEGIN in any case, or it ends with a slash. */
  predicate IsPlSqlBlock(c: string) {
    || Contains(ToUpperCase(c), "DECLARE")
    || Contains(ToUpperCase(c), "BEGIN")
    || EndsWith(Trim(c), "/")
  }

  /** The heuristic ignores case: lower- or upper-casing a script does not
      change whether it is run as one block. */
  lemma KeywordsIgnoreCase(c: string)
    ensures IsPlSqlBlock(ToLowerCase(c)) == IsPlSqlBlock(c)
    ensures IsPlSqlBlock(ToUpperCase(c)) == IsPlSqlBlock(c)
  {
    UpperOfLower(c);
    UpperIdempotent(c);
    CaseKeepsShape(c, ToLowerCase(c));
    CaseKeepsShape(c, ToUpperCase(c));
    SlashEndAlike(c, ToLowerCase(c));
    SlashEndAlike(c, ToUpperCase(c));
  }

  /** Case mapping leaves the blanks and the slashes where they are. */
  lemma CaseKeepsShape(c: string, d: string)
    requires d == ToLowerCase(c) || d == ToUpperCase(c)
    ensures SameBlanks(c, d)
    ensures forall i :: 0 <= i < |c| ==> (c[i] == '/') == (d[i] == '/')
  {
  }

  /** Strings that agree on where the blanks and the slashes are agree on
      whether their trimmed text ends with a slash. */
  lemma SlashEndAlike(s: string, t: string)
    requires SameBlanks(s, t)
    requires forall i :: 0 <= i < |s| ==> (s[i] == '/') == (t[i] == '/')
    ensures EndsWith(Trim(s), "/") == EndsWith(Trim(t), "/")
  {
    TrimAlike(s, t);
    TrimEndsWith(s, '/');
    TrimEndsWith(t, '/');
  }

  // ---------------------------------------------------------------------------
  // The split at semicolons outside quotes
  // ---------------------------------------------------------------------------

  /** The number of single quotes in `s`. */
  function Quotes(s: string): nat {
    if s == [] then 0 else (if s[0] == '\'' then 1 else 0) + Quotes(s[1..])
  }

  /** The separator pattern matches at `i`: a semicolon followed, up to the end of
      the text, by an even number of single quotes. */
  predicate IsCut(s: string, i: int) {
    0 <= i < |s| && s[i] == ';' && Quotes(s[i + 1..]) % 2 == 0
  }

  /** The first place at or after `from` where the separator matches, or |s|. */
  function FindCut(s: string, from: nat): (k: nat)
    requires from <= |s|
    ensures from <= k <= |s|
    ensures k < |s| ==> IsCut(s, k)
    ensures forall j :: from <= j < k ==> !IsCut(s, j)
    decreases |s| - from
  {
    if from == |s| then from
    else if IsCut(s, from) then from
    else FindCut(s, from + 1)
  }

  /** The text between the separators, in order, including empty pieces. */
  function Pieces(s: string): (ps: seq<string>)
    ensures |ps| >= 1
    decreases |s|
  {
    var k := FindCut(s, 0);
    if k == |s| then [s] else [s[..k]] + Pieces(s[k + 1..])
  }

  /** The pieces joined with semicolons. */
  function Join(ps: seq<string>): string
    requires |ps| >= 1
  {
    if |ps| == 1 then ps[0] else ps[0] + ";" + Join(ps[1..])
  }

  /** The places of the semicolons `Join` puts between the pieces. */
  ghost function Junctions(ps: seq<string>): (r: set<int>)
    requires |ps| >= 1
    ensures forall j :: j in r ==> 0 <= j
  {
    if |ps| == 1 then {}
    else {|ps[0]|} + set j | j in Junctions(ps[1..]) :: |ps[0]| + 1 + j
  }

  /** Nothing is lost by the split: joining the pieces gives the text back. */
  lemma {:induction false} PiecesJoin(s: string)
    ensures Join(Pieces(s)) == s
    decreases |s|
  {
    var k := FindCut(s, 0);
    if k < |s| {
      PiecesJoin(s[k + 1..]);
      assert s == s[..k] + ";" + s[k + 1..];
    }
  }

  /** Whether the separator matches after a prefix is cut off does not depend on the prefix. */
  lemma CutShift(s: string, k: nat, j: nat)
    requires k < |s|
    ensures IsCut(s, k + 1 + j) <==> IsCut(s[k + 1..], j)
  {
    if j < |s| - k - 1 {
      assert s[k + 1..][j + 1..] == s[k + 1 + j + 1..];
    }
  }

  /** Where the junctions of a list of two or more pieces lie, relative to
      the first piece. */
  lemma JunctionsOfFirst(ps: seq<string>, i: int)
    requires |ps| > 1
    ensures |ps[0]| in Junctions(ps)
    ensures i < |ps[0]| ==> i !in Junctions(ps)
    ensures i > |ps[0]| ==> (i in Junctions(ps) <==> i - |ps[0]| - 1 in Junctions(ps[1..]))
  {
  }

  /** The split is made at exactly the places the separator matches: a
      semicolon inside a quoted literal stays inside its piece. */
  lemma {:induction false} PiecesAtCuts(s: string, i: int)
    requires 0 <= i < |s|
    ensures i in Junctions(Pieces(s)) <==> IsCut(s, i)
    decreases |s|
  {
    var k := FindCut(s, 0);
    if k < |s| {
      var rest := s[k + 1..];
      var ps := Pieces(s);
      assert |ps[0]| == k && ps[1..] == Pieces(rest);
      JunctionsOfFirst(ps, i);
      if i > k {
        PiecesAtCuts(rest, i - k - 1);
        CutShift(s, k, i - k - 1);
      }
    }
  }

  /** The pieces without the empty ones at the end. */
  function DropTrailingEmpty(ps: seq<string>): (r: seq<string>)
    ensures |r| <= |ps| && r == ps[..|r|]
    ensures r == [] || r[|r| - 1] != []
    ensures forall i :: |r| <= i < |ps| ==> ps[i] == []
  {
    if |ps| > 0 && ps[|ps| - 1] == [] then DropTrailingEmpty(ps[..|ps| - 1]) else ps
  }

  /** `String.split` with the separator pattern: the text itself when the
      pattern never matches, otherwise the pieces without trailing empty ones. */
  function Split(s: string): seq<string> {
    if FindCut(s, 0) == |s| then [s] else DropTrailingEmpty(Pieces(s))
  }

  /** The trimmed pieces that are not empty: the statements a plain script runs. */
  function Statements(ps: seq<string>): (r: seq<string>)
    ensures |r| <= |ps|
  {
    if ps == [] then [] else StatementOf(ps[0]) + Statements(ps[1..])
  }

  /** The statement a piece gives: none when it is blank, else the piece trimmed. */
  function StatementOf(p: string): (r: seq<string>)
    ensures |r| <= 1
  {
    if Trim(p) == [] then [] else [Trim(p)]
  }

  lemma {:induction false} StatementsAppend(a: seq<string>, b: seq<string>)
    ensures Statements(a + b) == Statements(a) + Statements(b)
  {
    if a == [] {
      assert a + b == b;
    } else {
      var head := StatementOf(a[0]);
      assert (a + b)[0] == a[0] && (a + b)[1..] == a[1..] + b;
      assert Statements(a + b) == head + Statements(a[1..] + b);
      StatementsAppend(a[1..], b);
    }
  }

  lemma LastSplit<T>(xs: seq<T>)
    requires |xs| > 0
    ensures xs == xs[..|xs| - 1] + [xs[|xs| - 1]]
  {
  }

  /** Empty pieces at the end give no statements. */
  lemma {:induction false} DropTrailingEmptyStatements(ps: seq<string>)
    ensures Statements(DropTrailingEmpty(ps)) == Statements(ps)
    decreases |ps|
  {
    if |ps| > 0 && ps[|ps| - 1] == [] {
      var front := ps[..|ps| - 1];
      DropTrailingEmptyStatements(front);
      LastSplit(ps);
      StatementsAppend(front, [[]]);
      assert StatementOf([]) == [];
      assert Statements([[]]) == [];
    }
  }

  /** Dropping the trailing empty pieces never changes what runs: the statements
      of the split are those of the pieces between the separators. */
  lemma SplitStatements(s: string)
    ensures Statements(Split(s)) == Statements(Pieces(s))
  {
    if FindCut(s, 0) != |s| {
      DropTrailingEmptyStatements(Pieces(s));
    }
  }
}
