/** A closed group that is opened again loses its children (`json_build` of `App/json/json.c`). Here it is said of the
    text alone when that happens. */
module JsonReopen {
  import opened CText
  import opened JsonLex
  import opened JsonTree
  import opened JsonGrammar
  import opened JsonCompleteness
  import B = JsonBrackets

  predicate IsOpen(c: char) {
    c == '{' || c == '['
  }

  predicate IsClose(c: char) {
    c == '}' || c == ']'
  }

  /** Reading from `k` on, with or without a string open there: whether one is open at `n`. In a string a backslash
      takes the next character with it. */
  function InString(t: string, k: nat, n: nat, quoted: bool): bool
    decreases if k < n then n - k else 0
  {
    if k >= n then quoted
    else if quoted && At(t, k) == '\\' then InString(t, k + 2, n, quoted)
    else InString(t, k + 1, n, if At(t, k) == '"' then !quoted else quoted)
  }

  predicate Outside(t: string, i: nat) {
    !InString(t, 0, i, false)
  }

  /** A closing bracket outside strings at `i` is followed, over blanks only, by an opening one at `j`. */
  predicate ReopenedAt(t: string, i: nat, j: nat) {
    i < j < |t| && IsClose(t[i]) && Outside(t, i) && SpacesIn(t, i + 1, j) && IsOpen(t[j])
  }

  // ----- what the scanner passes over -----

  lemma {:induction false} PassesStrings(t: string, i: nat, q: Quoting, d: nat, n: nat)
    requires i <= |t| && Delim(t, i, q) == Some(d) && d <= n
    ensures InString(t, i, n, q.Inside?) == InString(t, d, n, false)
    decreases |t| - i
  {
    if i < d {
      if t[i] == '\\' {
        PassesStrings(t, i + 2, q, d, n);
      } else if t[i] == '"' {
        PassesStrings(t, i + 1, Toggle(q), d, n);
      } else {
        PassesStrings(t, i + 1, q, d, n);
      }
    }
  }

  /** Structural characters before the one found stand in strings. */
  lemma {:induction false} PassedAreQuoted(t: string, i: nat, q: Quoting, d: nat, p: nat)
    requires i <= |t| && Delim(t, i, q) == Some(d) && i <= p < d && IsToken(t[p])
    ensures InString(t, i, p, q.Inside?)
    decreases |t| - i
  {
    if i < p {
      if t[i] == '\\' {
        if i + 2 <= p { PassedAreQuoted(t, i + 2, q, d, p); }
      } else if t[i] == '"' {
        PassedAreQuoted(t, i + 1, Toggle(q), d, p);
      } else {
        PassedAreQuoted(t, i + 1, q, d, p);
      }
    }
  }

  lemma {:induction false} OverSpaces(t: string, i: nat, j: nat)
    requires i <= j < |t| && SpacesIn(t, i, j) && IsToken(t[j])
    ensures Delim(t, i, Bare) == Some(j)
    decreases j - i
  {
    if i < j {
      assert IsSpace(t[i]);
      OverSpaces(t, i + 1, j);
    }
  }

  /** A round begins at `pos`: no string is open there, nor at the structural character before it. */
  ghost predicate Synced(t: string, pos: nat) {
    && (forall n :: n >= pos ==> InString(t, 0, n, false) == InString(t, pos, n, false))
    && (pos > 0 ==> Outside(t, pos - 1))
  }

  lemma SyncedStep(t: string, pos: nat, d: nat)
    requires Synced(t, pos) && pos <= |t| && Delim(t, pos, Bare) == Some(d) && d < |t| && IsToken(t[d])
    ensures Synced(t, d + 1)
  {
    forall n | n >= d ensures InString(t, 0, n, false) == InString(t, d, n, false) {
      PassesStrings(t, pos, Bare, d, n);
    }
    forall n | n >= d + 1 ensures InString(t, 0, n, false) == InString(t, d + 1, n, false) {
      assert InString(t, d, n, false) == InString(t, d + 1, n, false);
    }
  }

  // ----- what every round keeps -----

  /** Groups in an object have names. */
  predicate PathNamed(p: Path<Info>) {
    match p
    case Top => true
    case Child(d, up) => (InObject(up) ==> d.name.Some?) && PathNamed(up)
    case Sibling(_, _, up) => PathNamed(up)
  }

  lemma {:induction false} AscendNamed(s: Lcrs<Info>, p: Path<Info>)
    requires PathNamed(p) && Parent(p).Some? && s.Bin?
    ensures var r := Ascend(s, p).value; r.kids.Bin? && PathNamed(r.path) && (InObject(r.path) ==> r.at.name.Some?)
    decreases p
  {
    if p.Sibling? { AscendNamed(Bin(p.prev, p.kids, s), p.up); }
  }

  /** The current node has children if and only if the last structural character was a closing bracket. */
  predicate RoundOk(t: string, c: Cursor<Info>, pos: nat) {
    && pos <= |t| && (c.kids.Bin? <==> pos > 0 && IsClose(t[pos - 1]))
    && PathNamed(c.path) && (c.kids.Bin? && InObject(c.path) ==> c.at.name.Some?)
  }

  lemma RoundStep(t: string, c: Cursor<Info>, pos: nat)
    requires RoundOk(t, c, pos) && Step(t, c, pos).Continue?
    ensures var r := Step(t, c, pos); r.next > 0 && RoundOk(t, r.cursor, r.next)
  {
    hide Lex, Settle, SetName, Ascend;
    if Parent(c.path).Some? {
      forall d ensures var r := Ascend(Bin(d, c.kids, Nil), c.path).value;
          r.kids.Bin? && PathNamed(r.path) && (InObject(r.path) ==> r.at.name.Some?) {
        AscendNamed(Bin(d, c.kids, Nil), c.path);
      }
    }
  }

  // ----- the builder and the text -----

  /** The index at which the last round begins; everything before it has been accepted. */
  function StopFrom(t: string, c: Cursor<Info>, pos: nat): (r: nat)
    requires pos <= |t|
    ensures pos <= r <= |t|
    decreases |t| - pos
  {
    match Step(t, c, pos)
    case Continue(c', next) => StopFrom(t, c', next)
    case _ => pos
  }

  function Stop(t: string): nat {
    StopFrom(t, START, 0)
  }

  /** What a round that goes on has found. */
  lemma RoundFound(t: string, c: Cursor<Info>, pos: nat)
    requires pos <= |t| && Step(t, c, pos).Continue?
    ensures var d := Step(t, c, pos).next - 1;
      && pos <= d < |t| && IsToken(t[d]) && Delim(t, pos, Bare) == Some(d) && Lex(t, pos).Some?
      && Lex(t, pos).value.token == d && (IsOpen(t[d]) ==> SpacesIn(t, pos, d))
  {
    hide Settle, SetName, Ascend;
  }

  lemma ReopeningIff(t: string, c: Cursor<Info>, pos: nat)
    requires RoundOk(t, c, pos) && Step(t, c, pos).Continue? && Synced(t, pos)
    ensures Step(t, c, pos).next > 0
    ensures Reopening(t, c, pos) <==> pos > 0 && ReopenedAt(t, pos - 1, Step(t, c, pos).next - 1)
  {
    hide Step, Synced, Outside;
    RoundFound(t, c, pos);
    if pos > 0 { SyncedOutside(t, pos); }
  }

  lemma SyncedOutside(t: string, pos: nat)
    requires Synced(t, pos) && pos > 0
    ensures Outside(t, pos - 1)
  {
  }

  /** From a round on: the group that is reopened, if any, is closed at or after the last structural character. */
  ghost predicate ReopenedFrom(t: string, pos: nat, stop: nat) {
    exists i: nat, j: nat :: pos <= i + 1 && j < stop && ReopenedAt(t, i, j)
  }

  lemma {:induction false} RunReopensIff(t: string, c: Cursor<Info>, pos: nat)
    requires pos <= |t| && RoundOk(t, c, pos) && Synced(t, pos)
    ensures Run(t, c, pos).reopened <==> ReopenedFrom(t, pos, StopFrom(t, c, pos))
    decreases |t| - pos
  {
    hide Step, Synced, RoundOk, ReopenedAt, Reopening;
    match Step(t, c, pos)
    case Continue(c', next) =>
      RoundFound(t, c, pos);
      RoundStep(t, c, pos);
      SyncedStep(t, pos, next - 1);
      RunReopensIff(t, c', next);
      ReopeningIff(t, c, pos);
      FirstOrLater(t, pos, next - 1, StopFrom(t, c', next));
    case _ =>
      NoneBetween(t, pos);
  }

  lemma NoneBetween(t: string, pos: nat)
    ensures !ReopenedFrom(t, pos, pos)
  {
  }

  /** The next reopened group is the one closed just before `pos`, or it is closed at the next structural character or
      later. */
  lemma FirstOrLater(t: string, pos: nat, d: nat, stop: nat)
    requires Synced(t, pos) && pos <= d < |t| && Delim(t, pos, Bare) == Some(d) && IsToken(t[d]) && d < stop
    ensures ReopenedFrom(t, pos, stop) <==> (pos > 0 && ReopenedAt(t, pos - 1, d)) || ReopenedFrom(t, d + 1, stop)
  {
    hide Synced;
    if i: nat, j: nat :| pos <= i + 1 && j < stop && ReopenedAt(t, i, j) {
      if i + 1 == pos {
        OverSpaces(t, pos, j);
      } else if i < d {
        NotPassed(t, pos, d, i);
      }
    }
  }

  lemma NotPassed(t: string, pos: nat, d: nat, i: nat)
    requires Synced(t, pos) && pos <= i < d && d <= |t| && Delim(t, pos, Bare) == Some(d) && IsToken(t[i])
    ensures !Outside(t, i)
  {
    PassedAreQuoted(t, pos, Bare, d, i);
  }

  lemma StartSynced(t: string)
    ensures Synced(t, 0) && RoundOk(t, START, 0)
  {
  }

  /** For every text: a group is reopened if and only if, in the part that was accepted, a closing bracket outside
      strings is followed over blanks by an opening one. */
  lemma ReopensIff(t: string)
    ensures Reopens(t) <==> exists i: nat, j: nat :: j < Stop(t) && ReopenedAt(t, i, j)
  {
    hide Run, ReopenedAt;
    StartSynced(t);
    RunReopensIff(t, START, 0);
    if i: nat, j: nat :| j < Stop(t) && ReopenedAt(t, i, j) {
      assert 0 <= i + 1;
    }
  }

  // ----- accepted texts -----

  lemma {:induction false} AcceptedStop(t: string, c: Cursor<Info>, pos: nat)
    requires pos <= |t| && '\0' !in t && Run(t, c, pos).tree.Some? && RoundOk(t, c, pos) && Synced(t, pos)
    ensures var s := StopFrom(t, c, pos); Delim(t, s, Bare) == Some(|t|) && Synced(t, s)
    decreases |t| - pos
  {
    hide Synced, RoundOk;
    match Step(t, c, pos)
    case Continue(c', next) =>
      RoundFound(t, c, pos);
      RoundStep(t, c, pos);
      SyncedStep(t, pos, next - 1);
      AcceptedStop(t, c', next);
    case Accept(_) =>
      AcceptedAtEnd(t, c, pos);
  }

  lemma AcceptedAtEnd(t: string, c: Cursor<Info>, pos: nat)
    requires pos <= |t| && '\0' !in t && Step(t, c, pos).Accept?
    ensures Delim(t, pos, Bare) == Some(|t|)
  {
    hide Settle, SetName, Ascend;
    NulIsEnd(t, Delim(t, pos, Bare).value);
  }

  lemma NulIsEnd(t: string, d: nat)
    requires d <= |t| && '\0' !in t && At(t, d) == '\0'
    ensures d == |t|
  {
  }

  /** Blanks after a character outside strings that is no quote are outside strings, and so is what follows them. */
  lemma {:induction false} BlanksOutside(t: string, i: nat, j: nat)
    requires i < j <= |t| && Outside(t, i) && t[i] != '"' && SpacesIn(t, i + 1, j)
    ensures Outside(t, j)
    decreases j
  {
    if j > i + 1 {
      BlanksOutside(t, i, j - 1);
      assert IsSpace(t[j - 1]);
    }
    OneFurther(t, 0, j - 1, false);
  }

  lemma {:induction false} OneFurther(t: string, k: nat, n: nat, quoted: bool)
    requires k <= n < |t| && t[n] != '"' && !InString(t, k, n, quoted)
    ensures !InString(t, k, n + 1, quoted)
    decreases n - k
  {
    if k < n {
      if quoted && At(t, k) == '\\' {
        if k + 2 <= n { OneFurther(t, k + 2, n, quoted); }
      } else {
        OneFurther(t, k + 1, n, if At(t, k) == '"' then !quoted else quoted);
      }
    }
  }

  /** For an accepted text: a group is reopened if and only if somewhere in it a closing bracket outside strings is
      followed over blanks by an opening one. */
  lemma AcceptedReopensIff(t: string)
    requires '\0' !in t && Parse(t).Some?
    ensures Reopens(t) <==> exists i: nat, j: nat :: ReopenedAt(t, i, j)
  {
    hide Run, Synced, Reopens, Stop;
    ReopensIff(t);
    if i: nat, j: nat :| ReopenedAt(t, i, j) {
      StartSynced(t);
      StopIsEnd(t);
      BlanksOutside(t, i, j);
      if j >= Stop(t) {
        NotPassed(t, Stop(t), |t|, j);
      }
    }
  }

  lemma StopIsEnd(t: string)
    requires '\0' !in t && Parse(t).Some?
    ensures Stop(t) <= |t| && Delim(t, Stop(t), Bare) == Some(|t|) && Synced(t, Stop(t))
  {
    hide Run, Synced, RoundOk;
    StartSynced(t);
    AcceptedStop(t, START, 0);
  }

  /** After any number of rounds the current node has children if and only if the last structural character was a
      closing bracket. */
  lemma {:induction false} ChildrenAfterClose(t: string, k: nat)
    ensures match B.After(t, k)
      case None => true
      case Some((c, pos)) => RoundOk(t, c, pos)
  {
    hide Step, RoundOk;
    if k > 0 && B.After(t, k).Some? {
      ChildrenAfterClose(t, k - 1);
      var (c, pos) := B.After(t, k - 1).value;
      RoundStep(t, c, pos);
    } else {
      StartSynced(t);
    }
  }

  // ----- texts that reopen a group -----

  lemma ReopenStep(t: string, c: Cursor<Info>, q: nat)
    requires q < |t| && IsOpen(t[q]) && c.kids.Bin? && c.path.Top?
    ensures var r := Run(t, Cursor(BLANK, Nil, Child(c.at.(kind := TokenKind(t[q])), Top)), q + 1);
      Run(t, c, q) == r.(reopened := true)
  {
    assert Delim(t, q, Bare) == Some(q);
    assert Lex(t, q) == Some(Lexeme(q, q, q));
    hide Lex, Settle, SetName;
  }

  /** Two groups in a row: the text is accepted, with the second one's value, and the first one's nodes are lost. */
  lemma SecondReplacesFirst(a: Body, b: Body)
    requires BodyOk(a) && BodyOk(b) && !a.Simple? && !b.Simple?
    ensures var t := ShowBody(a) + ShowBody(b); Parse(t) == Some(TreeOf(Denote(b))) && Reopens(t)
  {
    hide Run, Lex, Settle, Occurs, BodyOk, ShowBody, Denote, KidsOf;
    var t := ShowBody(a) + ShowBody(b);
    OccursWhole(ShowBody(a), ShowBody(b));
    GroupRun(t, 0, a, None, Top);
    LexGap(t, 0, "");
    OpenStep(t, START, 0, 0);
    var q := |ShowBody(a)|;
    GroupRun(t, q, b, None, Top);
    GroupKinds(a, b);
    ReopenStep(t, Cursor(InfoOf(None, Denote(a)), KidsOf(Denote(a)), Top), q);
    LexGap(t, |t|, "");
    SettleGroup(t, InfoOf(None, Denote(b)), |t|);
    EndStep(t, Cursor(InfoOf(None, Denote(b)), KidsOf(Denote(b)), Top), |t|, Lexeme(|t|, |t|, |t|), InfoOf(None, Denote(b)));
  }

  lemma OccursWhole(a: string, b: string)
    ensures Occurs(a + b, 0, a) && Occurs(a + b, |a|, b) && Occurs(a + b, 0, "") && Occurs(a + b, |a + b|, "")
    ensures IsBlank("")
  {
  }

  lemma GroupKinds(a: Body, b: Body)
    requires !a.Simple? && !b.Simple?
    ensures KidsOf(Denote(a)).Bin? && InfoOf(None, Denote(a)) == Info(if a.ArrayOf? then Array else Object, None, None)
    ensures InfoOf(None, Denote(b)) == Info(if b.ArrayOf? then Array else Object, None, None)
  {
    GroupHasKids(a);
  }

  lemma GroupHasKids(a: Body)
    requires !a.Simple?
    ensures KidsOf(Denote(a)).Bin?
  {
  }

  /** The text `[1][2]` leaves the nodes of the first array behind. */
  lemma TwoArraysLose()
    ensures Reopens("[1][2]") && ReopenedAt("[1][2]", 2, 3)
  {
    hide Reopens, Parse, ShowBody, BodyOk, TreeOf, Denote, ReopenedAt;
    var one := ArrayOf("", [Element("", Simple(NumWord(Num(false, "1", None, None))), "")]);
    var two := ArrayOf("", [Element("", Simple(NumWord(Num(false, "2", None, None))), "")]);
    OneNumber("1");
    OneNumber("2");
    SecondReplacesFirst(one, two);
    TwoArraysText();
  }

  lemma TwoArraysText()
    ensures ("[" + ("1" + "]")) + ("[" + ("2" + "]")) == "[1][2]" && ReopenedAt("[1][2]", 2, 3)
  {
    assert InString("[1][2]", 1, 2, false) == InString("[1][2]", 2, 2, false);
  }

  lemma OneNumber(s: string)
    requires Digits(s)
    ensures var b := ArrayOf("", [Element("", Simple(NumWord(Num(false, s, None, None))), "")]);
      BodyOk(b) && ShowBody(b) == "[" + (s + "]")
  {
    var n := Num(false, s, None, None);
    var e := Element("", Simple(NumWord(n)), "");
    assert ShowNum(n) == s by { assert "" + (s + ("" + "")) == s; }
    assert ShowElement(e) == s by { assert "" + (s + "") == s; }
    assert ElementOk(e);
    assert ShowItems([e]) == s;
  }
}
