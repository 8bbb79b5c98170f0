/** The pieces SQL statements are assembled from: `_joinIfNotEmtpy`'s
    dropping of empty pieces, how trimming and joining keep the `?`
    placeholders, and facts about the fixed keywords. */
module SqlPieces {
  import opened Wrappers
  import opened PhpStrings

  /** The pieces, trimmed, without those PHP's `empty` rejects ("" and "0"), in order. */
  function NonEmptyPieces(pieces: seq<string>): (r: seq<string>)
    ensures |r| <= |pieces|
    ensures forall i :: 0 <= i < |r| ==> !IsEmptyString(r[i])
    decreases |pieces|
  {
    if |pieces| == 0 then []
    else
      var front := NonEmptyPieces(pieces[..|pieces| - 1]);
      var last := Trim(pieces[|pieces| - 1]);
      if IsEmptyString(last) then front else front + [last]
  }

  /** Pieces that are already trimmed and non-empty are all kept, in order. */
  lemma {:induction false} NonEmptyPiecesKeep(pieces: seq<string>)
    requires forall i :: 0 <= i < |pieces| ==> Trim(pieces[i]) == pieces[i] && !IsEmptyString(pieces[i])
    ensures NonEmptyPieces(pieces) == pieces
    decreases |pieces|
  {
    if |pieces| > 0 {
      NonEmptyPiecesKeep(pieces[..|pieces| - 1]);
    }
  }

  /** Pieces that trim to "" or "0" all vanish. */
  lemma {:induction false} NonEmptyPiecesDrop(pieces: seq<string>)
    requires forall i :: 0 <= i < |pieces| ==> IsEmptyString(Trim(pieces[i]))
    ensures NonEmptyPieces(pieces) == []
    decreases |pieces|
  {
    if |pieces| > 0 {
      NonEmptyPiecesDrop(pieces[..|pieces| - 1]);
    }
  }

  /** What `_joinIfNotEmtpy(glue, pieces)` returns. */
  function JoinNonEmpty(glue: string, pieces: seq<string>): string {
    Join(glue, NonEmptyPieces(pieces))
  }

  lemma {:induction false} PlaceholderSumConst(ps: seq<string>, m: nat)
    requires forall i :: 0 <= i < |ps| ==> Placeholders(ps[i]) == m
    ensures PlaceholderSum(ps) == |ps| * m
    decreases |ps|
  {
    if |ps| > 0 {
      PlaceholderSumConst(ps[..|ps| - 1], m);
    }
  }

  /** A five-piece join written out. */
  lemma JoinFive(glue: string, a: string, b: string, c: string, d: string, e: string)
    ensures Join(glue, [a, b, c, d, e]) == a + glue + b + glue + c + glue + d + glue + e
  {
    var ps := [a, b, c, d, e];
    assert ps[..4] == [a, b, c, d];
    assert ps[..4][..3] == [a, b, c];
    assert ps[..4][..3][..2] == [a, b];
    assert ps[..4][..3][..2][..1] == [a];
    assert Join(glue, [a, b]) == a + glue + b;
    assert Join(glue, [a, b, c]) == a + glue + b + glue + c;
    assert Join(glue, [a, b, c, d]) == a + glue + b + glue + c + glue + d;
  }

  /** Placeholders of a concatenation add up. */
  lemma PlaceholdersAppend(a: string, b: string)
    ensures Placeholders(a + b) == Placeholders(a) + Placeholders(b)
  {
    assert multiset(a + b) == multiset(a) + multiset(b);
  }

  /** The placeholders of a five-piece statement are those of its pieces. */
  lemma PlaceholdersFive(glue: string, a: string, b: string, c: string, d: string, e: string)
    requires '?' !in glue
    ensures Placeholders(Join(glue, [a, b, c, d, e]))
      == Placeholders(a) + Placeholders(b) + Placeholders(c) + Placeholders(d) + Placeholders(e)
  {
    JoinFive(glue, a, b, c, d, e);
    NoPlaceholders(glue);
    PlaceholdersAppend(a, glue);
    PlaceholdersAppend(a + glue, b);
    PlaceholdersAppend(a + glue + b, glue);
    PlaceholdersAppend(a + glue + b + glue, c);
    PlaceholdersAppend(a + glue + b + glue + c, glue);
    PlaceholdersAppend(a + glue + b + glue + c + glue, d);
    PlaceholdersAppend(a + glue + b + glue + c + glue + d, glue);
    PlaceholdersAppend(a + glue + b + glue + c + glue + d + glue, e);
  }

  /** Trimming a string that begins with a non-blank prefix ending in a non-blank
      character keeps at least that prefix. */
  lemma TrimKeepsPrefix(p: string, x: string)
    requires |p| > 0 && !IsTrimChar(p[0]) && !IsTrimChar(p[|p| - 1])
    ensures |Trim(p + x)| >= |p| && Trim(p + x)[..|p|] == p
  {
    var s := p + x;
    assert TrimLeft(s) == s;
    assert s[|p| - 1] == p[|p| - 1];
  }

  /** Joining a kept first piece, a second piece and an empty third one. */
  lemma NonEmptyHead(a: string, t: string)
    requires Trim(a) == a && !IsEmptyString(a)
    ensures JoinNonEmpty(" ", [a, t, ""]) == a + (if IsEmptyString(Trim(t)) then "" else " " + Trim(t))
  {
    var ps := [a, t, ""];
    assert ps[..2] == [a, t];
    assert [a, t][..1] == [a];
    assert NonEmptyPieces([a]) == [a];
    assert Trim("") == "";
    var head := NonEmptyPieces([a, t]);
    assert NonEmptyPieces(ps) == head;
    if !IsEmptyString(Trim(t)) {
      assert head == [a, Trim(t)];
      assert head[..1] == [a];
      assert Join(" ", head) == a + " " + Trim(t);
    } else {
      assert head == [a];
    }
  }

  lemma NonEmptyPiecesSnoc(ps: seq<string>, w: string)
    ensures NonEmptyPieces(ps + [w]) == NonEmptyPieces(ps) + (if IsEmptyString(Trim(w)) then [] else [Trim(w)])
  {
    assert (ps + [w])[..|ps|] == ps;
  }

  lemma JoinSnoc(glue: string, ps: seq<string>, x: string)
    requires |ps| >= 1
    ensures Join(glue, ps + [x]) == Join(glue, ps) + glue + x
  {
    assert (ps + [x])[..|ps|] == ps;
  }

  lemma NonEmptyPair(a: string, t: string)
    requires Trim(a) == a && !IsEmptyString(a)
    ensures |NonEmptyPieces([a, t])| >= 1
  {
    assert [a, t][..1] == [a];
    assert NonEmptyPieces([a]) == [a];
  }

  /** A kept third piece is joined after the first two with one space. */
  lemma NonEmptyTail(a: string, t: string, w: string)
    requires Trim(a) == a && !IsEmptyString(a) && !IsEmptyString(Trim(w))
    ensures JoinNonEmpty(" ", [a, t, w]) == JoinNonEmpty(" ", [a, t, ""]) + " " + Trim(w)
  {
    var head := NonEmptyPieces([a, t]);
    assert NonEmptyPieces([a, t, w]) == head + [Trim(w)] by {
      assert [a, t] + [w] == [a, t, w];
      NonEmptyPiecesSnoc([a, t], w);
    }
    assert NonEmptyPieces([a, t, ""]) == head by {
      assert [a, t] + [""] == [a, t, ""];
      NonEmptyPiecesSnoc([a, t], "");
      assert Trim("") == "";
    }
    assert |head| >= 1 by {
      NonEmptyPair(a, t);
    }
    JoinSnoc(" ", head, Trim(w));
  }

  /** A keyword of two or more characters with no blank at either end is kept as it is. */
  lemma KeywordKept(w: string)
    requires |w| >= 2 && !IsTrimChar(w[0]) && !IsTrimChar(w[|w| - 1])
    ensures Trim(w) == w && !IsEmptyString(w)
  {
    TrimKeeps(w);
  }

  /** A kept first piece, then a second piece, then a third one: the third is
      joined after one space exactly when it is non-empty once trimmed. */
  lemma KeptHeadShape(a: string, q: string, w: string)
    requires Trim(a) == a && !IsEmptyString(a)
    ensures JoinNonEmpty(" ", [a, q, ""]) == a + (if IsEmptyString(Trim(q)) then "" else " " + Trim(q))
    ensures !IsEmptyString(Trim(w)) ==> JoinNonEmpty(" ", [a, q, w]) == JoinNonEmpty(" ", [a, q, ""]) + " " + Trim(w)
  {
    NonEmptyHead(a, q);
    if !IsEmptyString(Trim(w)) {
      NonEmptyTail(a, q, w);
    }
  }

  lemma ThreePlaceholders(a: string, b: string, c: string)
    ensures Placeholders(a + b + c) == Placeholders(a) + Placeholders(b) + Placeholders(c)
  {
    PlaceholdersAppend(a, b);
    PlaceholdersAppend(a + b, c);
  }

  /** Blank characters are never placeholders. */
  lemma BlankPlaceholders(p: string)
    requires forall i :: 0 <= i < |p| ==> IsTrimChar(p[i])
    ensures Placeholders(p) == 0
  {
    assert '?' !in p by {
      forall i | 0 <= i < |p| ensures p[i] != '?' {
        assert IsTrimChar(p[i]);
      }
    }
    NoPlaceholders(p);
  }

  /** Left-trimming never removes a placeholder. */
  lemma TrimLeftPlaceholders(s: string)
    ensures Placeholders(TrimLeft(s)) == Placeholders(s)
  {
    var l := TrimLeft(s);
    var p := s[..|s| - |l|];
    assert s == p + l;
    assert forall i :: 0 <= i < |p| ==> IsTrimChar(p[i]) by {
      forall i | 0 <= i < |p| ensures IsTrimChar(p[i]) {
        assert p[i] == s[i];
      }
    }
    BlankPlaceholders(p);
    PlaceholdersAppend(p, l);
  }

  /** Right-trimming never removes a placeholder. */
  lemma TrimRightPlaceholders(s: string)
    ensures Placeholders(TrimRight(s)) == Placeholders(s)
  {
    var r := TrimRight(s);
    var t := s[|r|..];
    assert s == r + t;
    assert forall i :: 0 <= i < |t| ==> IsTrimChar(t[i]) by {
      forall i | 0 <= i < |t| ensures IsTrimChar(t[i]) {
        assert t[i] == s[|r| + i];
      }
    }
    BlankPlaceholders(t);
    PlaceholdersAppend(r, t);
  }

  /** Trimming never removes a placeholder. */
  lemma TrimPlaceholders(s: string)
    ensures Placeholders(Trim(s)) == Placeholders(s)
  {
    TrimLeftPlaceholders(s);
    TrimRightPlaceholders(TrimLeft(s));
  }

  /** Dropping the empty pieces and trimming the rest keeps every placeholder. */
  lemma {:induction false} NonEmptyPiecesPlaceholders(pieces: seq<string>)
    ensures PlaceholderSum(NonEmptyPieces(pieces)) == PlaceholderSum(pieces)
    decreases |pieces|
  {
    if |pieces| > 0 {
      var front := pieces[..|pieces| - 1];
      var last := pieces[|pieces| - 1];
      NonEmptyPiecesPlaceholders(front);
      TrimPlaceholders(last);
      var kept := NonEmptyPieces(front);
      if IsEmptyString(Trim(last)) {
        NoPlaceholders(Trim(last));
      } else {
        assert (kept + [Trim(last)])[..|kept|] == kept;
      }
    }
  }

  /** `_joinIfNotEmtpy` with a placeholder-free glue keeps exactly the pieces' placeholders. */
  lemma JoinNonEmptyPlaceholders(glue: string, pieces: seq<string>)
    requires '?' !in glue
    ensures Placeholders(JoinNonEmpty(glue, pieces)) == PlaceholderSum(pieces)
  {
    JoinPlaceholders(glue, NonEmptyPieces(pieces));
    NonEmptyPiecesPlaceholders(pieces);
  }

  /** When only the k-th piece may hold placeholders, the joined text holds exactly its placeholders. */
  lemma JoinNonEmptyOnly(glue: string, ps: seq<string>, k: nat)
    requires '?' !in glue && k < |ps|
    requires forall i :: 0 <= i < |ps| && i != k ==> Placeholders(ps[i]) == 0
    ensures Placeholders(JoinNonEmpty(glue, ps)) == Placeholders(ps[k])
  {
    PlaceholderSumOnly(ps, k);
    JoinNonEmptyPlaceholders(glue, ps);
  }

  lemma {:induction false} PlaceholderSumOnly(ps: seq<string>, k: nat)
    requires k < |ps|
    requires forall i :: 0 <= i < |ps| && i != k ==> Placeholders(ps[i]) == 0
    ensures PlaceholderSum(ps) == Placeholders(ps[k])
    decreases |ps|
  {
    var n := |ps| - 1;
    if n == k {
      PlaceholderSumZero(ps[..n]);
    } else {
      PlaceholderSumOnly(ps[..n], k);
    }
  }

  lemma {:induction false} PlaceholderSumZero(ps: seq<string>)
    requires forall i :: 0 <= i < |ps| ==> Placeholders(ps[i]) == 0
    ensures PlaceholderSum(ps) == 0
    decreases |ps|
  {
    if |ps| > 0 {
      PlaceholderSumZero(ps[..|ps| - 1]);
    }
  }

  /** Appending pieces that trim to nothing leaves the kept pieces unchanged. */
  lemma {:induction false} NonEmptyPiecesAppendEmpty(ps: seq<string>, qs: seq<string>)
    requires forall i :: 0 <= i < |qs| ==> IsEmptyString(Trim(qs[i]))
    ensures NonEmptyPieces(ps + qs) == NonEmptyPieces(ps)
    decreases |qs|
  {
    if |qs| > 0 {
      var n := |qs| - 1;
      assert ps + qs == (ps + qs[..n]) + [qs[n]];
      NonEmptyPiecesSnoc(ps + qs[..n], qs[n]);
      NonEmptyPiecesAppendEmpty(ps, qs[..n]);
    } else {
      assert ps + qs == ps;
    }
  }

  /** Of three joined pieces, only the last holds placeholders when the first two hold none. */
  lemma ThirdPiecePlaceholders(glue: string, a: string, q: string, w: string)
    requires '?' !in glue && Placeholders(a) == 0 && Placeholders(q) == 0
    ensures Placeholders(JoinNonEmpty(glue, [a, q, w])) == Placeholders(w)
  {
    var ps := [a, q, w];
    assert forall i :: 0 <= i < |ps| && i != 2 ==> Placeholders(ps[i]) == 0 by {
      assert ps[0] == a && ps[1] == q;
    }
    JoinNonEmptyOnly(glue, ps, 2);
  }

  /** A printed integer holds no placeholder. */
  lemma IntToStringFree(i: int)
    ensures Placeholders(IntToString(i)) == 0
  {
    var m: nat := if i < 0 then -i else i;
    NatToStringDigits(m);
    var t := IntToString(i);
    assert '?' !in t by {
      forall j | 0 <= j < |t| ensures t[j] != '?' {
        if i < 0 { assert j == 0 || IsDigit(NatToString(m)[j - 1]); } else { assert IsDigit(NatToString(m)[j]); }
      }
    }
    NoPlaceholders(t);
  }

  /** Of seven pieces, all but the third hold no placeholder. */
  lemma SevenPiecesFree(a: string, b: string, w: string, d: string, e: string, f: string, g: string)
    requires Placeholders(a) == 0 && Placeholders(b) == 0 && Placeholders(d) == 0
    requires Placeholders(e) == 0 && Placeholders(f) == 0 && Placeholders(g) == 0
    ensures var ps := [a, b, w, d, e, f, g];
      forall i :: 0 <= i < |ps| && i != 2 ==> Placeholders(ps[i]) == 0
  {
    var ps := [a, b, w, d, e, f, g];
    forall i | 0 <= i < |ps| && i != 2 ensures Placeholders(ps[i]) == 0 {
      if i == 0 {
        assert ps[i] == a;
      } else if i == 1 {
        assert ps[i] == b;
      } else if i == 3 {
        assert ps[i] == d;
      } else if i == 4 {
        assert ps[i] == e;
      } else if i == 5 {
        assert ps[i] == f;
      } else {
        assert ps[i] == g;
      }
    }
  }

  /** Of seven joined pieces, only the third holds placeholders when the others hold none. */
  lemma JoinSevenOnlyThird(glue: string, a: string, b: string, w: string, d: string, e: string, f: string, g: string)
    requires '?' !in glue
    requires Placeholders(a) == 0 && Placeholders(b) == 0 && Placeholders(d) == 0
    requires Placeholders(e) == 0 && Placeholders(f) == 0 && Placeholders(g) == 0
    ensures Placeholders(JoinNonEmpty(glue, [a, b, w, d, e, f, g])) == Placeholders(w)
  {
    SevenPiecesFree(a, b, w, d, e, f, g);
    JoinNonEmptyOnly(glue, [a, b, w, d, e, f, g], 2);
  }

  // Each fact about a fixed keyword is a lemma of its own: proved together,
  // such facts about string literals cost the solver far more than one by one.

  lemma DeleteKeywordFree()
    ensures Placeholders("DELETE FROM") == 0
  {
    NoPlaceholders("DELETE FROM");
  }

  lemma SpaceFree()
    ensures '?' !in " "
  {
  }

  lemma LimitKeywordFree()
    ensures Placeholders("LIMIT ") == 0
  {
    NoPlaceholders("LIMIT ");
  }

  lemma OffsetKeywordFree()
    ensures Placeholders("OFFSET ") == 0
  {
    NoPlaceholders("OFFSET ");
  }

  lemma UpdateKeywordFree()
    ensures Placeholders("UPDATE ") == 0
  {
    NoPlaceholders("UPDATE ");
  }

  lemma SetKeywordFree()
    ensures Placeholders(" SET") == 0
  {
    NoPlaceholders(" SET");
  }

  lemma OpenParenFree()
    ensures Placeholders("(") == 0
  {
  }

  lemma BetweenTail()
    ensures Placeholders(" BETWEEN ? AND ?)") == 2
  {
  }

  lemma InOpening(negated: bool)
    ensures Placeholders(if negated then " NOT IN (" else " IN (") == 0
  {
    if negated {
      NoPlaceholders(" NOT IN (");
    } else {
      NoPlaceholders(" IN (");
    }
  }

  lemma NullTail(negated: bool)
    ensures Placeholders(if negated then " IS NOT NULL" else " IS NULL") == 0
  {
    if negated {
      NoPlaceholders(" IS NOT NULL");
    } else {
      NoPlaceholders(" IS NULL");
    }
  }

  lemma EqualsPlaceholder()
    ensures Placeholders("= ?") == 1
  {
  }

  lemma WhereKeywordFree()
    ensures Placeholders("WHERE") == 0
  {
    NoPlaceholders("WHERE");
  }

  lemma ValuesKeywordFree()
    ensures Placeholders("VALUES") == 0
  {
    NoPlaceholders("VALUES");
  }
}
