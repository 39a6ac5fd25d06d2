/**
 The run-length status string of eta.c: "RRRWW" becomes "R(3),W(2)".

 `UpdateCondensedStr` follows the pointer loops of the source; `Decode` is an
 independent reader of the printed form, used to state that nothing is lost.
 */
module Condense {

  import opened Options

  datatype Group = Group(c: char, n: nat)

  // ------------------------------------------------------------------ decimals

  function Digit(d: nat): char
    requires d < 10
  {
    '0' + d as char
  }

  predicate IsDigit(c: char) {
    '0' <= c <= '9'
  }

  /** What "%u" prints. */
  function Decimal(n: nat): (r: string)
    ensures r != []
  {
    if n < 10 then [Digit(n)] else Decimal(n / 10) + [Digit(n % 10)]
  }

  /** Read digits onto acc; the rest starts with a non-digit. */
  function ParseDigits(t: string, acc: nat): (r: (nat, string))
    ensures |r.1| <= |t|
  {
    if t == [] || !IsDigit(t[0]) then (acc, t)
    else ParseDigits(t[1..], acc * 10 + (t[0] - '0') as nat)
  }

  lemma {:induction false} ParseDecimal(n: nat, rest: string)
    ensures ParseDigits(Decimal(n) + rest, 0) == ParseDigits(rest, n)
  {
    if n < 10 {
      assert (Decimal(n) + rest)[1..] == rest;
    } else {
      var tail := [Digit(n % 10)] + rest;
      ParseDecimal(n / 10, tail);
      assert Decimal(n) + rest == Decimal(n / 10) + tail;
      assert tail[1..] == rest;
    }
  }

  lemma {:induction false} DecimalShort(n: nat)
    requires n >= 1
    ensures |Decimal(n)| <= n
  {
    if n >= 10 { DecimalShort(n / 10); }
  }

  // -------------------------------------------------------------------- groups

  function Repeat(c: char, n: nat): (r: string)
    ensures |r| == n && forall i :: 0 <= i < n ==> r[i] == c
  {
    seq(n, i => c)
  }

  function Expand(gs: seq<Group>): string {
    if gs == [] then [] else Repeat(gs[0].c, gs[0].n) + Expand(gs[1..])
  }

  /** The groups of a condensed string: maximal, never empty. */
  ghost predicate Maximal(gs: seq<Group>) {
    && (forall i :: 0 <= i < |gs| ==> gs[i].n > 0)
    && (forall i :: 0 <= i < |gs| - 1 ==> gs[i].c != gs[i + 1].c)
  }

  function Item(g: Group): (r: string)
    ensures |r| >= 4
  {
    [g.c] + "(" + Decimal(g.n) + ")"
  }

  /** Items separated by commas, none at the end. */
  function Render(gs: seq<Group>): string {
    if gs == [] then []
    else if |gs| == 1 then Item(gs[0])
    else Item(gs[0]) + "," + Render(gs[1..])
  }

  /** Items each followed by a comma, as the loop writes them. */
  function Written(gs: seq<Group>): string {
    if gs == [] then [] else Item(gs[0]) + "," + Written(gs[1..])
  }

  lemma {:induction false} WrittenSnoc(gs: seq<Group>, g: Group)
    ensures Written(gs + [g]) == Written(gs) + Item(g) + ","
  {
    if gs == [] {
      assert [g][1..] == [];
    } else {
      WrittenSnoc(gs[1..], g);
      assert (gs + [g])[1..] == gs[1..] + [g];
    }
  }

  /** Stepping back over the last comma leaves the rendering. */
  lemma {:induction false} DropComma(gs: seq<Group>)
    requires gs != []
    ensures Written(gs) == Render(gs) + ","
  {
    if |gs| > 1 {
      DropComma(gs[1..]);
    } else {
      assert Written(gs[1..]) == [];
    }
  }

  lemma {:induction false} ExpandSnoc(gs: seq<Group>, g: Group)
    ensures Expand(gs + [g]) == Expand(gs) + Repeat(g.c, g.n)
  {
    if gs == [] {
      assert [g][1..] == [];
    } else {
      ExpandSnoc(gs[1..], g);
      assert (gs + [g])[1..] == gs[1..] + [g];
    }
  }

  /** `run_str` holds five bytes per job: enough for all items with their commas. */
  lemma {:induction false} FitsBuffer(gs: seq<Group>)
    requires forall i :: 0 <= i < |gs| ==> gs[i].n > 0
    ensures |Written(gs)| <= 5 * |Expand(gs)|
  {
    if gs != [] {
      FitsBuffer(gs[1..]);
      DecimalShort(gs[0].n);
    }
  }

  // -------------------------------------------------------------------- decoder

  /** Read one item; none if the text is malformed. */
  function ParseItem(t: string): (r: Option<(Group, string)>)
    ensures r.Some? ==> |r.value.1| < |t|
  {
    if |t| < 2 || t[1] != '(' then None else
      var (n, rest) := ParseDigits(t[2..], 0);
      if rest == [] || rest[0] != ')' then None else Some((Group(t[0], n), rest[1..]))
  }

  function Decode(t: string): Option<seq<Group>>
    decreases |t|
  {
    if t == [] then Some([]) else
      match ParseItem(t)
      case None => None
      case Some((g, rest)) =>
        if rest == [] then Some([g])
        else if rest[0] != ',' || |rest| == 1 then None
        else match Decode(rest[1..])
             case None => None
             case Some(gs) => Some([g] + gs)
  }

  lemma ParseItemOf(g: Group, rest: string)
    ensures ParseItem(Item(g) + rest) == Some((g, rest))
  {
    var t := Item(g) + rest;
    assert t[2..] == Decimal(g.n) + (")" + rest);
    ParseDecimal(g.n, ")" + rest);
    assert (")" + rest)[1..] == rest;
  }

  lemma {:induction false} DecodeRender(gs: seq<Group>)
    ensures Decode(Render(gs)) == Some(gs)
  {
    if gs != [] {
      if |gs| == 1 {
        ParseItemOf(gs[0], []);
        assert Item(gs[0]) + [] == Item(gs[0]) == Render(gs);
        assert gs == [gs[0]];
      } else {
        DecodeRender(gs[1..]);
        var tail := "," + Render(gs[1..]);
        ParseItemOf(gs[0], tail);
        assert Render(gs) == Item(gs[0]) + tail;
        assert tail[1..] == Render(gs[1..]);
        assert |tail| > 1;
        assert gs == [gs[0]] + gs[1..];
      }
    }
  }

  /** Different strings never condense to the same text. */
  lemma RenderInjective(gs: seq<Group>, hs: seq<Group>)
    requires Render(gs) == Render(hs)
    ensures gs == hs
  {
    DecodeRender(gs);
    DecodeRender(hs);
  }

  /** The form of the output: three times R, once W, twelve times R. */
  lemma Example()
    ensures Render([Group('R', 3), Group('W', 1), Group('R', 12)]) == "R(3),W(1),R(12)"
  {
    assert Decimal(12) == "12";
    assert [Group('R', 3), Group('W', 1), Group('R', 12)][1..] == [Group('W', 1), Group('R', 12)];
    assert [Group('W', 1), Group('R', 12)][1..] == [Group('R', 12)];
  }

  // ------------------------------------------------------------------ the loops

  lemma TextAssoc(w: string, c: char, d: string)
    ensures w + ([c] + "(" + d + ")") + "," == w + [c] + "(" + d + "),"
  {
  }

  lemma AddedText(gs: seq<Group>, g: Group)
    ensures Written(gs + [g]) == Written(gs) + [g.c] + "(" + Decimal(g.n) + "),"
  {
    WrittenSnoc(gs, g);
    TextAssoc(Written(gs), g.c, Decimal(g.n));
  }

  /** The run from `start` to `r` is one more group. */
  lemma AddedRun(rstr: string, start: nat, r: nat, gs: seq<Group>)
    requires start < r <= |rstr| && Expand(gs) == rstr[..start]
    requires forall i :: start <= i < r ==> rstr[i] == rstr[start]
    ensures Expand(gs + [Group(rstr[start], r - start)]) == rstr[..r]
  {
    ExpandSnoc(gs, Group(rstr[start], r - start));
    assert rstr[..r] == rstr[..start] + Repeat(rstr[start], r - start);
  }

  /** `update_condensed_str`.  The result decodes to maximal groups that expand to
      the input, and is their rendering; the bytes written before the final comma is dropped
      never exceed five per status letter. */
  method UpdateCondensedStr(rstr: string) returns (condensed: string)
    requires forall i :: 0 <= i < |rstr| ==> rstr[i] != '\0'
    ensures Decode(condensed).Some?
    ensures var gs := Decode(condensed).value; Expand(gs) == rstr && Maximal(gs) && condensed == Render(gs)
    ensures |condensed| <= 5 * |rstr|
    ensures condensed != [] ==> condensed[|condensed| - 1] == ')'
  {
    condensed := [];
    ghost var gs: seq<Group> := [];
    var r := 0;
    if r < |rstr| {
      while r < |rstr|
        invariant 0 <= r <= |rstr|
        invariant condensed == Written(gs) && Expand(gs) == rstr[..r] && Maximal(gs)
        invariant r > 0 ==> gs != [] && gs[|gs| - 1].c == rstr[r - 1]
        invariant 0 < r < |rstr| ==> rstr[r - 1] != rstr[r]
      {
        ghost var start := r;
        var nr := 1;
        condensed := condensed + [rstr[r]];
        r := r + 1;
        while r < |rstr| && rstr[r - 1] == rstr[r]
          invariant start < r <= |rstr| && nr == r - start
          invariant forall i :: start <= i < r ==> rstr[i] == rstr[start]
        {
          r, nr := r + 1, nr + 1;
        }
        condensed := condensed + "(" + Decimal(nr) + "),";
        ghost var g := Group(rstr[start], nr);
        AddedText(gs, g);
        AddedRun(rstr, start, r, gs);
        gs := gs + [g];
      }
      assert rstr[..r] == rstr;
      DropComma(gs);
      condensed := condensed[..|condensed| - 1];
      EndsWithParen(gs);
    }
    FitsBuffer(gs);
    DecodeRender(gs);
  }

  lemma {:induction false} EndsWithParen(gs: seq<Group>)
    requires gs != []
    ensures Render(gs) != [] && Render(gs)[|Render(gs)| - 1] == ')'
  {
    if |gs| > 1 { EndsWithParen(gs[1..]); }
  }
}
