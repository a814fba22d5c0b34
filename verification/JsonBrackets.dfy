/** The builder's path against the brackets of the text: whatever the text is, the kinds of the ancestors
    of the current node are the brackets that are open at that point of the text. */
module JsonBrackets {
  import opened CText
  import opened JsonLex
  import opened JsonTree

  /** What a plain reading of the text knows: whether a string is open, and the open brackets, inner first. */
  datatype Reading = Reading(quoted: bool, open: seq<Kind>) | Mismatch

  function ReadChar(c: char, r: Reading): Reading
    requires r.Reading?
  {
    if c == '"' then r.(quoted := !r.quoted)
    else if r.quoted then r
    else if c == '{' || c == '[' then r.(open := [TokenKind(c)] + r.open)
    else if c == '}' || c == ']' then
      if r.open != [] && r.open[0] == TokenKind(c) then r.(open := r.open[1..]) else Mismatch
    else r
  }

  /** The reading of `t[i..n]`, going on from `r`; in a string a backslash takes the next character with it. */
  function Brackets(t: string, i: nat, n: nat, r: Reading): Reading
    decreases if i < n then n - i else 0
  {
    if i >= n || r.Mismatch? then r
    else if r.quoted && At(t, i) == '\\' then Brackets(t, i + 2, n, r)
    else Brackets(t, i + 1, n, ReadChar(At(t, i), r))
  }

  function Ancestors(p: Path<Info>): seq<Kind> {
    match p
    case Top => []
    case Child(d, up) => [d.kind] + Ancestors(up)
    case Sibling(_, _, up) => Ancestors(up)
  }

  lemma {:induction false} ScanKeepsBrackets(t: string, i: nat, q: Quoting, d: nat, n: nat, open: seq<Kind>)
    requires i <= |t| && Delim(t, i, q) == Some(d) && d <= n
    ensures Brackets(t, i, n, Reading(q.Inside?, open)) == Brackets(t, d, n, Reading(false, open))
    decreases |t| - i
  {
    if i < d {
      if t[i] == '\\' {
        ScanKeepsBrackets(t, i + 2, q, d, n, open);
      } else if t[i] == '"' {
        ScanKeepsBrackets(t, i + 1, Toggle(q), d, n, open);
      } else {
        ScanKeepsBrackets(t, i + 1, q, d, n, open);
      }
    }
  }

  lemma {:induction false} AncestorsOfAscend(s: Lcrs<Info>, p: Path<Info>)
    requires Parent(p).Some?
    ensures Ancestors(p) == [Parent(p).value.kind] + Ancestors(Ascend(s, p).value.path)
    decreases p
  {
    if p.Sibling? { AncestorsOfAscend(Bin(p.prev, p.kids, s), p.up); }
  }

  lemma StepAtToken(t: string, c: Cursor<Info>, pos: nat, d: nat)
    requires pos <= |t| && Lex(t, pos).Some? && Lex(t, pos).value.token == d
    requires Step(t, c, pos).Continue?
    ensures var r := Step(t, c, pos);
      && r.next == d + 1 && At(t, d) != '"'
      && ReadChar(At(t, d), Reading(false, Ancestors(c.path))) == Reading(false, Ancestors(r.cursor.path))
  {
    hide Lex, Settle, SetName, Ascend;
    if Parent(c.path).Some? {
      forall k ensures Ancestors(c.path)
                    == [Parent(c.path).value.kind] + Ancestors(Ascend(Bin(k, c.kids, Nil), c.path).value.path) {
        AncestorsOfAscend(Bin(k, c.kids, Nil), c.path);
      }
    }
  }

  /** One step of the builder reads the brackets of the text that it passes over. */
  lemma StepReadsBrackets(t: string, c: Cursor<Info>, pos: nat, n: nat)
    requires pos <= |t| && Step(t, c, pos).Continue? && Step(t, c, pos).next <= n
    ensures var r := Step(t, c, pos);
      Brackets(t, pos, n, Reading(false, Ancestors(c.path)))
      == Brackets(t, r.next, n, Reading(false, Ancestors(r.cursor.path)))
  {
    hide Settle, SetName, Ascend, Ancestors;
    var d := Lex(t, pos).value.token;
    StepAtToken(t, c, pos, d);
    ScanKeepsBrackets(t, pos, Bare, d, n, Ancestors(c.path));
  }

  /** The cursor and the index after `k` rounds of the loop, if there are that many. */
  function After(t: string, k: nat): (r: Option<(Cursor<Info>, nat)>)
    ensures r.Some? ==> r.value.1 <= |t|
  {
    if k == 0 then Some((START, 0))
    else match After(t, k - 1)
      case None => None
      case Some((c, pos)) =>
        match Step(t, c, pos)
        case Continue(c', next) => Some((c', next))
        case _ => None
  }

  /** For every text and every number of rounds: the ancestors are the brackets open in the text read so
      far, no string is open there, and the root has no siblings. */
  lemma {:induction false} EveryRound(t: string, k: nat, n: nat)
    ensures After(t, k).Some? && After(t, k).value.1 <= n ==>
      var (c, pos) := After(t, k).value;
      && Rooted(c.path)
      && Brackets(t, 0, n, Reading(false, [])) == Brackets(t, pos, n, Reading(false, Ancestors(c.path)))
  {
    hide Step, Brackets;
    if k > 0 && After(t, k).Some? && After(t, k).value.1 <= n {
      var (c, pos) := After(t, k - 1).value;
      EveryRound(t, k - 1, n);
      StepReadsBrackets(t, c, pos, n);
      StepRooted(t, c, pos);
    }
  }

  lemma AncestorsAreOpenBrackets(t: string, k: nat)
    ensures match After(t, k)
      case None => true
      case Some((c, pos)) => Brackets(t, 0, pos, Reading(false, [])) == Reading(false, Ancestors(c.path))
  {
    if After(t, k).Some? {
      EveryRound(t, k, After(t, k).value.1);
    }
  }

  lemma {:induction false} AcceptedBrackets(t: string, c: Cursor<Info>, pos: nat)
    requires pos <= |t| && '\0' !in t && Rooted(c.path) && Run(t, c, pos).tree.Some?
    ensures Brackets(t, pos, |t|, Reading(false, Ancestors(c.path))) == Reading(false, [])
    decreases |t| - pos
  {
    hide Settle, SetName, Ascend, Brackets;
    match Step(t, c, pos)
    case Continue(c', next) =>
      StepReadsBrackets(t, c, pos, |t|);
      StepRooted(t, c, pos);
      AcceptedBrackets(t, c', next);
    case Accept(_) =>
      ScanKeepsBrackets(t, pos, Bare, |t|, |t|, Ancestors(c.path));
      EndReading(t, Ancestors(c.path));
  }

  lemma EndReading(t: string, open: seq<Kind>)
    ensures Brackets(t, |t|, |t|, Reading(false, open)) == Reading(false, open)
  {
  }

  /** Soundness: an accepted text has balanced brackets that match in kind, and closed quotes. */
  lemma AcceptedIsBalanced(t: string)
    requires '\0' !in t && Parse(t).Some?
    ensures Brackets(t, 0, |t|, Reading(false, [])) == Reading(false, [])
  {
    hide Run, Brackets;
    AcceptedBrackets(t, START, 0);
  }
}
