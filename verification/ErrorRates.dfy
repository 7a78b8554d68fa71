/** The three edit-distance programs: the full matrix behind WER, the cost and operation matrices
    behind Align with their traceback, and the two swapped rows behind CER. */
module ErrorRates {
  import opened Common
  import opened EditDistance
  import opened Alignments
  import opened ArabicText

  // ---------------------------------------------------------------- word error rate

  /** Cell (k, l) is on the border or comes before (i, j) in row-major order. */
  predicate Reached(k: int, l: int, i: int, j: int) {
    k == 0 || l == 0 || k < i || (k == i && l < j)
  }

  /** Fills the whole table; every cell is the distance of the two prefixes. */
  method LevenshteinMatrix(ref: seq<string>, hyp: seq<string>) returns (dp: array2<int>)
    ensures fresh(dp) && dp.Length0 == |ref| + 1 && dp.Length1 == |hyp| + 1
    ensures forall i, j :: 0 <= i <= |ref| && 0 <= j <= |hyp| ==> dp[i, j] == Dist(ref[..i], hyp[..j])
  {
    hide Dist;
    var rows, cols := |ref| + 1, |hyp| + 1;
    dp := new int[rows, cols];
    for i := 0 to rows
      invariant forall k :: 0 <= k < i ==> dp[k, 0] == k
    {
      dp[i, 0] := i;
    }
    for j := 0 to cols
      invariant forall k :: 0 <= k < j ==> dp[0, k] == k
      invariant forall k :: 0 <= k < rows ==> dp[k, 0] == k
    {
      dp[0, j] := j;
    }
    Borders(ref, hyp);
    for i := 1 to rows
      invariant forall k, l :: 0 <= k < rows && 0 <= l < cols && Reached(k, l, i, 1) ==>
        dp[k, l] == Dist(ref[..k], hyp[..l])
    {
      for j := 1 to cols
        invariant forall k, l :: 0 <= k < rows && 0 <= l < cols && Reached(k, l, i, j) ==>
          dp[k, l] == Dist(ref[..k], hyp[..l])
      {
        var cost := 1;
        if ref[i - 1] == hyp[j - 1] {
          cost := 0;
        }
        DistAt(ref, hyp, i, j);
        dp[i, j] := Min3(dp[i - 1, j] + 1, dp[i, j - 1] + 1, dp[i - 1, j - 1] + cost);
      }
    }
  }

  /** The two borders of the tables. */
  lemma {:induction false} Borders<T>(ref: seq<T>, hyp: seq<T>)
    ensures forall k :: 0 <= k <= |ref| ==> Dist(ref[..k], hyp[..0]) == k
    ensures forall k :: 0 < k <= |ref| ==> BestOp(ref[..k], hyp[..0]) == Delete
    ensures forall l :: 0 <= l <= |hyp| ==> Dist(ref[..0], hyp[..l]) == l
    ensures forall l :: 0 < l <= |hyp| ==> BestOp(ref[..0], hyp[..l]) == Insert
  {
  }

  /** An error rate: distance over reference length; an empty reference gives 0 or 1. */
  function Rate(distance: nat, refLen: nat, hypLen: nat): real {
    if refLen == 0 then (if hypLen == 0 then 0.0 else 1.0)
    else distance as real / refLen as real
  }

  method WER(reference: string, hypothesis: string) returns (rate: real)
    ensures var ref, hyp := Tokens(reference), Tokens(hypothesis);
      rate == Rate(Dist(ref, hyp), |ref|, |hyp|)
  {
    var refText := Normalize(reference);
    var hypText := Normalize(hypothesis);
    var ref, hyp := Tokenize(refText), Tokenize(hypText);
    if |ref| == 0 {
      if |hyp| == 0 {
        return 0.0;
      }
      return 1.0;
    }
    var dp := LevenshteinMatrix(ref, hyp);
    assert ref[..|ref|] == ref && hyp[..|hyp|] == hyp;
    return dp[|ref|, |hyp|] as real / |ref| as real;
  }

  // ---------------------------------------------------------------- alignment

  /** The cheapest candidate, ties broken by operation priority. */
  method PickBest(c1: int, o1: Op, c2: int, o2: Op, c3: int, o3: Op) returns (bestCost: int, bestOp: Op)
    ensures bestCost == Min3(c1, c2, c3)
    ensures (bestCost, bestOp) in {(c1, o1), (c2, o2), (c3, o3)}
    ensures bestCost == c1 ==> Priority(bestOp) <= Priority(o1)
    ensures bestCost == c2 ==> Priority(bestOp) <= Priority(o2)
    ensures bestCost == c3 ==> Priority(bestOp) <= Priority(o3)
  {
    bestCost, bestOp := c1, o1;
    var candidates := [(c2, o2), (c3, o3)];
    for k := 0 to |candidates|
      invariant (bestCost, bestOp) == (c1, o1) || exists m :: 0 <= m < k && (bestCost, bestOp) == candidates[m]
      invariant bestCost <= c1 && (bestCost == c1 ==> Priority(bestOp) <= Priority(o1))
      invariant forall m :: 0 <= m < k ==> bestCost <= candidates[m].0
      invariant forall m :: 0 <= m < k && bestCost == candidates[m].0 ==> Priority(bestOp) <= Priority(candidates[m].1)
    {
      var cand := candidates[k];
      if cand.0 < bestCost || (cand.0 == bestCost && Priority(cand.1) < Priority(bestOp)) {
        bestCost, bestOp := cand.0, cand.1;
      }
    }
    assert bestCost <= candidates[0].0 && bestCost <= candidates[1].0;
  }

  /** Every cell but the corner holds the operation that starts the backwards-first cheapest script. */
  ghost predicate IsOpTable(ops: array2<Op>, ref: seq<string>, hyp: seq<string>)
    reads ops
  {
    && ops.Length0 == |ref| + 1
    && ops.Length1 == |hyp| + 1
    && forall i, j :: 0 <= i <= |ref| && 0 <= j <= |hyp| && i + j > 0 ==> ops[i, j] == BestOp(ref[..i], hyp[..j])
  }

  /** Both tables with their borders set: deletions down the left, insertions along the top. */
  method NewTables(refLen: nat, hypLen: nat) returns (dp: array2<int>, ops: array2<Op>)
    ensures fresh(dp) && dp.Length0 == refLen + 1 && dp.Length1 == hypLen + 1
    ensures fresh(ops) && ops.Length0 == refLen + 1 && ops.Length1 == hypLen + 1
    ensures forall k :: 0 <= k <= refLen ==> dp[k, 0] == k
    ensures forall k :: 0 < k <= refLen ==> ops[k, 0] == Delete
    ensures forall k :: 0 <= k <= hypLen ==> dp[0, k] == k
    ensures forall k :: 0 < k <= hypLen ==> ops[0, k] == Insert
  {
    dp := new int[refLen + 1, hypLen + 1]((i, j) => 0);
    ops := new Op[refLen + 1, hypLen + 1]((i, j) => Unset);
    for i := 1 to refLen + 1
      invariant dp[0, 0] == 0
      invariant forall k :: 0 < k < i ==> dp[k, 0] == k && ops[k, 0] == Delete
    {
      dp[i, 0] := i;
      ops[i, 0] := Delete;
    }
    for j := 1 to hypLen + 1
      invariant dp[0, 0] == 0
      invariant forall k :: 0 < k <= refLen ==> dp[k, 0] == k && ops[k, 0] == Delete
      invariant forall k :: 0 < k < j ==> dp[0, k] == k && ops[0, k] == Insert
    {
      dp[0, j] := j;
      ops[0, j] := Insert;
    }
  }

  method FillTables(ref: seq<string>, hyp: seq<string>) returns (ops: array2<Op>)
    ensures IsOpTable(ops, ref, hyp)
  {
    hide Dist, BestOp;
    var refLen, hypLen := |ref|, |hyp|;
    var dp;
    dp, ops := NewTables(refLen, hypLen);
    Borders(ref, hyp);
    for i := 1 to refLen + 1
      invariant forall k, l :: 0 <= k <= refLen && 0 <= l <= hypLen && Reached(k, l, i, 1) ==>
        dp[k, l] == Dist(ref[..k], hyp[..l])
      invariant forall k, l :: 0 <= k <= refLen && 0 <= l <= hypLen && k + l > 0 && Reached(k, l, i, 1) ==>
        ops[k, l] == BestOp(ref[..k], hyp[..l])
    {
      for j := 1 to hypLen + 1
        invariant forall k, l :: 0 <= k <= refLen && 0 <= l <= hypLen && Reached(k, l, i, j) ==>
          dp[k, l] == Dist(ref[..k], hyp[..l])
        invariant forall k, l :: 0 <= k <= refLen && 0 <= l <= hypLen && k + l > 0 && Reached(k, l, i, j) ==>
          ops[k, l] == BestOp(ref[..k], hyp[..l])
      {
        var cost := 1;
        var diagOp := Substitute;
        if ref[i - 1] == hyp[j - 1] {
          cost := 0;
          diagOp := Match;
        }
        var c, op := PickBest(dp[i - 1, j - 1] + cost, diagOp, dp[i - 1, j] + 1, Delete, dp[i, j - 1] + 1, Insert);
        PickedIsBest(ref, hyp, i, j, c, op, dp[i - 1, j - 1] + cost, dp[i - 1, j] + 1, dp[i, j - 1] + 1);
        dp[i, j] := c;
        ops[i, j] := op;
      }
    }
  }

  /** What `PickBest` chooses at an inner cell is the distance and the stored operation. */
  lemma {:induction false} PickedIsBest(ref: seq<string>, hyp: seq<string>, i: nat, j: nat, c: int, op: Op,
                     diag: int, del: int, ins: int)
    requires 0 < i <= |ref| && 0 < j <= |hyp|
    requires diag == Dist(ref[..i - 1], hyp[..j - 1]) + Cost(ref[i - 1], hyp[j - 1])
    requires del == Dist(ref[..i - 1], hyp[..j]) + 1
    requires ins == Dist(ref[..i], hyp[..j - 1]) + 1
    requires c == Min3(diag, del, ins)
    requires var diagOp := if ref[i - 1] == hyp[j - 1] then Match else Substitute;
      && (c, op) in {(diag, diagOp), (del, Delete), (ins, Insert)}
      && (c == diag ==> Priority(op) <= Priority(diagOp))
      && (c == del ==> Priority(op) <= Priority(Delete))
    ensures c == Dist(ref[..i], hyp[..j]) && op == BestOp(ref[..i], hyp[..j])
  {
    hide Dist;
    DistAt(ref, hyp, i, j);
    assert Init(ref[..i]) == ref[..i - 1] && Init(hyp[..j]) == hyp[..j - 1];
  }

  /** Walks the table from the corner; the rows come out last first, the walk ends at (0,0) and
      the default branch is dead. */
  method Traceback(ref: seq<string>, hyp: seq<string>, ops: array2<Op>) returns (out: seq<Alignment>)
    requires IsOpTable(ops, ref, hyp)
    ensures Reversed(out) == BestRows(ref, hyp)
  {
    hide Dist, BestOp, BestScript, Explains, Rows, BestRows;
    out := [];
    var i, j := |ref|, |hyp|;
    assert ref[..i] == ref && hyp[..j] == hyp;
    assert BestRows(ref, hyp) + Reversed([]) == BestRows(ref, hyp);
    while i > 0 || j > 0
      invariant 0 <= i <= |ref| && 0 <= j <= |hyp|
      invariant BestRows(ref[..i], hyp[..j]) + Reversed(out) == BestRows(ref, hyp)
      decreases i + j
    {
      BestRowsUnfold(ref, hyp, i, j);
      match ops[i, j] {
        case Match | Substitute =>
          ReversedLast(out, Alignment(ref[i - 1], hyp[j - 1], ops[i, j]));
          out := out + [Alignment(ref[i - 1], hyp[j - 1], ops[i, j])];
          i := i - 1;
          j := j - 1;
        case Delete =>
          ReversedLast(out, Alignment(ref[i - 1], "", Delete));
          out := out + [Alignment(ref[i - 1], "", Delete)];
          i := i - 1;
        case Insert =>
          ReversedLast(out, Alignment("", hyp[j - 1], Insert));
          out := out + [Alignment("", hyp[j - 1], Insert)];
          j := j - 1;
        case Unset =>
          assert false;
      }
    }
    NoRows(ref, hyp);
  }

  lemma NoRows(ref: seq<string>, hyp: seq<string>)
    ensures BestRows(ref[..0], hyp[..0]) == []
  {
  }

  /** One step of the walk, in terms of prefixes. */
  lemma BestRowsUnfold(ref: seq<string>, hyp: seq<string>, i: nat, j: nat)
    requires i <= |ref| && j <= |hyp| && i + j > 0
    ensures var op := BestOp(ref[..i], hyp[..j]);
      && op != Unset && (op != Insert ==> i > 0) && (op != Delete ==> j > 0)
      && BestRows(ref[..i], hyp[..j]) ==
         match op
         case Delete => BestRows(ref[..i - 1], hyp[..j]) + [Alignment(ref[i - 1], "", Delete)]
         case Insert => BestRows(ref[..i], hyp[..j - 1]) + [Alignment("", hyp[j - 1], Insert)]
         case _ => BestRows(ref[..i - 1], hyp[..j - 1]) + [Alignment(ref[i - 1], hyp[j - 1], op)]
  {
    hide Dist, BestOp, BestScript;
    BestOpStep(ref[..i], hyp[..j]);
    BestScriptUnfolds(ref[..i], hyp[..j]);
    BestScriptIsOptimal(ref[..i], hyp[..j]);
    if i > 0 { assert Init(ref[..i]) == ref[..i - 1]; }
    if j > 0 { assert Init(hyp[..j]) == hyp[..j - 1]; }
  }

  /** Reverses the rows in place. */
  method Reverse(a: array<Alignment>)
    modifies a
    ensures a[..] == Reversed(old(a[..]))
  {
    var i, j := 0, a.Length - 1;
    while i < j
      invariant 0 <= i <= a.Length && i + j == a.Length - 1 && i <= j + 1
      invariant forall k :: 0 <= k < i || j < k < a.Length ==> a[k] == old(a[a.Length - 1 - k])
      invariant forall k :: i <= k <= j ==> a[k] == old(a[k])
    {
      a[i], a[j] := a[j], a[i];
      i, j := i + 1, j - 1;
    }
  }

  method Align(reference: string, hypothesis: string) returns (rows: seq<Alignment>)
    ensures rows == BestRows(Tokens(reference), Tokens(hypothesis))
  {
    var refText := Normalize(reference);
    var hypText := Normalize(hypothesis);
    var ref, hyp := Tokenize(refText), Tokenize(hypText);
    var ops := FillTables(ref, hyp);
    var out := Traceback(ref, hyp, ops);
    var a := new Alignment[|out|](k requires 0 <= k < |out| => out[k]);
    assert a[..] == out;
    Reverse(a);
    rows := a[..];
  }

  // ---------------------------------------------------------------- character error rate

  /** Two rows instead of a matrix: after `i` rounds `prev` is row `i` of the full table, whatever
      the swap left in `curr`. */
  method CER(reference: string, hypothesis: string) returns (rate: real)
    ensures var ref, hyp := Runes(reference), Runes(hypothesis);
      rate == Rate(Dist(ref, hyp), |ref|, |hyp|)
  {
    hide Dist;
    var refText := Normalize(reference);
    var hypText := Normalize(hypothesis);
    var ref, hyp := Join(Fields(refText)), Join(Fields(hypText));
    if |ref| == 0 {
      if |hyp| == 0 {
        return 0.0;
      }
      return 1.0;
    }
    var prev := new int[|hyp| + 1];
    var curr := new int[|hyp| + 1];
    for j := 0 to prev.Length
      invariant forall k :: 0 <= k < j ==> prev[k] == k
    {
      prev[j] := j;
    }
    Borders(ref, hyp);
    for i := 1 to |ref| + 1
      invariant prev != curr && fresh(prev) && fresh(curr)
      invariant prev.Length == |hyp| + 1 && curr.Length == |hyp| + 1
      invariant forall k :: 0 <= k <= |hyp| ==> prev[k] == Dist(ref[..i - 1], hyp[..k])
    {
      curr[0] := i;
      for j := 1 to |hyp| + 1
        invariant curr[0] == i
        invariant forall k :: 0 <= k <= |hyp| ==> prev[k] == Dist(ref[..i - 1], hyp[..k])
        invariant forall k :: 0 < k < j ==> curr[k] == Dist(ref[..i], hyp[..k])
      {
        var cost := 1;
        if ref[i - 1] == hyp[j - 1] {
          cost := 0;
        }
        DistAt(ref, hyp, i, j);
        curr[j] := Min3(prev[j] + 1, curr[j - 1] + 1, prev[j - 1] + cost);
      }
      DistAt(ref, hyp, i, 0);
      prev, curr := curr, prev;
    }
    assert ref[..|ref|] == ref && hyp[..|hyp|] == hyp;
    return prev[|hyp|] as real / |ref| as real;
  }

  // ---------------------------------------------------------------- words against characters

  /** The characters a non-match row may cost: the longer of its two words. */
  function RowCharacters(rows: seq<Alignment>): nat {
    if rows == [] then 0
    else
      var row := Last(rows);
      RowCharacters(Init(rows)) + if row.op == Match then 0 else Larger(|row.refWord|, |row.hypWord|)
  }

  lemma {:induction false} JoinAppend(words: seq<string>, w: string)
    ensures Join(words + [w]) == Join(words) + w
  {
    if words == [] {
      assert words + [w] == [w];
    } else {
      assert (words + [w])[1..] == words[1..] + [w];
      JoinAppend(words[1..], w);
    }
  }

  /** Any alignment of the words bounds the character distance of the joined texts. */
  lemma {:induction false} CharactersBoundedByRows(rows: seq<Alignment>, ref: seq<string>, hyp: seq<string>)
    requires Aligns(rows, ref, hyp)
    ensures Dist(Join(ref), Join(hyp)) <= RowCharacters(rows)
    decreases |rows|
  {
    if rows != [] {
      var row, before := Last(rows), Init(rows);
      assert ValidRow(row);
      assert forall k :: 0 <= k < |before| ==> before[k] == rows[k];
      var r, h := RefWords(before), HypWords(before);
      CharactersBoundedByRows(before, r, h);
      JoinAppend(r, row.refWord);
      JoinAppend(h, row.hypWord);
      var x := if row.op == Insert then "" else row.refWord;
      var y := if row.op == Delete then "" else row.hypWord;
      assert Join(r) + "" == Join(r) && Join(h) + "" == Join(h);
      assert ref == (if row.op == Insert then r else r + [row.refWord]);
      assert hyp == (if row.op == Delete then h else h + [row.hypWord]);
      DistSubadditive(Join(r), Join(h), x, y);
      DistBounds(x, y);
      DistZero(x, y);
    }
  }

  /** The distance behind CER is at most the longer words of Align's non-match rows. */
  lemma CharacterDistanceBounded(reference: string, hypothesis: string)
    ensures Dist(Runes(reference), Runes(hypothesis))
         <= RowCharacters(BestRows(Tokens(reference), Tokens(hypothesis)))
  {
    var ref, hyp := Tokens(reference), Tokens(hypothesis);
    RunesAreJoinedTokens(reference);
    RunesAreJoinedTokens(hypothesis);
    BestRowsAreOptimal(ref, hyp);
    CharactersBoundedByRows(BestRows(ref, hyp), ref, hyp);
  }

  /** A rate is zero exactly when the two sequences are equal. */
  lemma RateIsZero<T>(ref: seq<T>, hyp: seq<T>)
    ensures Rate(Dist(ref, hyp), |ref|, |hyp|) == 0.0 <==> ref == hyp
  {
    DistZero(ref, hyp);
  }

  /** A word error rate of zero forces a character error rate of zero. */
  lemma ZeroWordRateIsZeroCharacterRate(reference: string, hypothesis: string)
    requires Rate(Dist(Tokens(reference), Tokens(hypothesis)), |Tokens(reference)|, |Tokens(hypothesis)|) == 0.0
    ensures Rate(Dist(Runes(reference), Runes(hypothesis)), |Runes(reference)|, |Runes(hypothesis)|) == 0.0
  {
    RateIsZero(Tokens(reference), Tokens(hypothesis));
    RunesAreJoinedTokens(reference);
    RunesAreJoinedTokens(hypothesis);
    RateIsZero(Runes(reference), Runes(hypothesis));
  }
}
