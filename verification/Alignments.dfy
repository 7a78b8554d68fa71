/** Alignment rows: what `Align` returns, stated without reference to any table. */
module Alignments {
  import opened EditDistance

  datatype Alignment = Alignment(refWord: string, hypWord: string, op: Op)

  /** The row an operation contributes; inserts have no reference word, deletes no hypothesis word. */
  function RowFor(ref: seq<string>, hyp: seq<string>, op: Op): Alignment
    requires op != Insert ==> |ref| > 0
    requires op != Delete ==> |hyp| > 0
  {
    match op
    case Delete => Alignment(Last(ref), "", Delete)
    case Insert => Alignment("", Last(hyp), Insert)
    case _ => Alignment(Last(ref), Last(hyp), op)
  }

  /** The rows of a script, first row first. */
  function Rows(ref: seq<string>, hyp: seq<string>, script: seq<Op>): (rows: seq<Alignment>)
    requires Explains(ref, hyp, script)
    ensures |rows| == |script|
    decreases |script|
  {
    if script == [] then []
    else
      var op := Last(script);
      Rows(RefBefore(ref, op), HypBefore(hyp, op), Init(script)) + [RowFor(ref, hyp, op)]
  }

  /** The rows `Align` is specified to return. */
  function BestRows(ref: seq<string>, hyp: seq<string>): seq<Alignment> {
    BestScriptIsOptimal(ref, hyp);
    Rows(ref, hyp, BestScript(ref, hyp))
  }

  // ---------------------------------------------------------------- what a list of rows says

  /** A match row pairs equal words, a substitute row unequal ones, delete and insert rows have
      one word only. */
  predicate ValidRow(row: Alignment) {
    match row.op
    case Match => row.refWord == row.hypWord
    case Substitute => row.refWord != row.hypWord
    case Delete => row.hypWord == ""
    case Insert => row.refWord == ""
    case Unset => false
  }

  /** The reference words of the rows that are not inserts. */
  function RefWords(rows: seq<Alignment>): seq<string> {
    if rows == [] then []
    else RefWords(Init(rows)) + if Last(rows).op == Insert then [] else [Last(rows).refWord]
  }

  /** The hypothesis words of the rows that are not deletes. */
  function HypWords(rows: seq<Alignment>): seq<string> {
    if rows == [] then []
    else HypWords(Init(rows)) + if Last(rows).op == Delete then [] else [Last(rows).hypWord]
  }

  ghost predicate Aligns(rows: seq<Alignment>, ref: seq<string>, hyp: seq<string>) {
    && (forall k :: 0 <= k < |rows| ==> ValidRow(rows[k]))
    && RefWords(rows) == ref
    && HypWords(rows) == hyp
  }

  function Ops(rows: seq<Alignment>): seq<Op> {
    seq(|rows|, k requires 0 <= k < |rows| => rows[k].op)
  }

  function CountOp(rows: seq<Alignment>, op: Op): nat {
    if rows == [] then 0
    else CountOp(Init(rows), op) + if Last(rows).op == op then 1 else 0
  }

  lemma AppendRow(rows: seq<Alignment>, row: Alignment)
    ensures RefWords(rows + [row]) == RefWords(rows) + if row.op == Insert then [] else [row.refWord]
    ensures HypWords(rows + [row]) == HypWords(rows) + if row.op == Delete then [] else [row.hypWord]
    ensures Ops(rows + [row]) == Ops(rows) + [row.op]
    ensures (forall k :: 0 <= k < |rows| ==> ValidRow(rows[k])) && ValidRow(row) ==>
      forall k :: 0 <= k < |rows + [row]| ==> ValidRow((rows + [row])[k])
  {
    assert Init(rows + [row]) == rows;
  }

  lemma LastIsAppended<T>(s: seq<T>)
    requires |s| > 0
    ensures s == Init(s) + [Last(s)]
  {
  }

  lemma InitOfAppend<T>(s: seq<T>, x: T)
    ensures Init(s + [x]) == s && Last(s + [x]) == x
  {
  }

  /** The rows of any valid script project back to both inputs. */
  lemma {:induction false} RowsAlign(ref: seq<string>, hyp: seq<string>, script: seq<Op>)
    requires Explains(ref, hyp, script)
    ensures Aligns(Rows(ref, hyp, script), ref, hyp)
    ensures Ops(Rows(ref, hyp, script)) == script
    decreases |script|
  {
    if script != [] {
      var op := Last(script);
      var r, h := RefBefore(ref, op), HypBefore(hyp, op);
      RowsAlign(r, h, Init(script));
      AppendRow(Rows(r, h, Init(script)), RowFor(ref, hyp, op));
      LastIsAppended(script);
      if op != Insert { LastIsAppended(ref); }
      if op != Delete { LastIsAppended(hyp); }
    }
  }

  /** The script of valid rows extends by one operation. */
  lemma AppendedRowExplains(before: seq<Alignment>, row: Alignment, r: seq<string>, h: seq<string>,
                            ref: seq<string>, hyp: seq<string>)
    requires ValidRow(row)
    requires Explains(r, h, Ops(before)) && Rows(r, h, Ops(before)) == before
    requires ref == r + if row.op == Insert then [] else [row.refWord]
    requires hyp == h + if row.op == Delete then [] else [row.hypWord]
    ensures Explains(ref, hyp, Ops(before) + [row.op])
    ensures Rows(ref, hyp, Ops(before) + [row.op]) == before + [row]
  {
    InitOfAppend(Ops(before), row.op);
    if row.op != Insert { InitOfAppend(r, row.refWord); }
    if row.op != Delete { InitOfAppend(h, row.hypWord); }
    assert ref == r || row.op != Insert;
    assert hyp == h || row.op != Delete;
  }

  /** Conversely any valid list of rows is the rows of its own operations, so the scripts
      the theory quantifies over are exactly the alignments of the two word lists. */
  lemma {:induction false} RowsAreAScript(rows: seq<Alignment>, ref: seq<string>, hyp: seq<string>)
    requires Aligns(rows, ref, hyp)
    ensures Explains(ref, hyp, Ops(rows))
    ensures Rows(ref, hyp, Ops(rows)) == rows
    decreases |rows|
  {
    if rows != [] {
      var row, before := Last(rows), Init(rows);
      LastIsAppended(rows);
      AppendRow(before, row);
      assert ValidRow(rows[|rows| - 1]);
      assert forall k :: 0 <= k < |before| ==> before[k] == rows[k];
      RowsAreAScript(before, RefWords(before), HypWords(before));
      AppendedRowExplains(before, row, RefWords(before), HypWords(before), ref, hyp);
    }
  }

  /** The edits of a script, counted on its rows. */
  lemma {:induction false} EditsAreNonMatches(rows: seq<Alignment>)
    requires forall k :: 0 <= k < |rows| ==> rows[k].op != Unset
    ensures Edits(Ops(rows)) == |rows| - CountOp(rows, Match)
    ensures Edits(Ops(rows)) == CountOp(rows, Substitute) + CountOp(rows, Delete) + CountOp(rows, Insert)
  {
    if rows != [] {
      assert Init(Ops(rows)) == Ops(Init(rows));
      EditsAreNonMatches(Init(rows));
      assert Last(rows) == rows[|rows| - 1];
    }
  }

  /** The rows `Align` returns are a valid alignment with as few non-match rows as the corner of
      the distance table, no alignment has fewer, and any other alignment with that few comes
      later in the backwards order match, substitute, delete, insert. */
  lemma BestRowsAreOptimal(ref: seq<string>, hyp: seq<string>)
    ensures Aligns(BestRows(ref, hyp), ref, hyp)
    ensures |BestRows(ref, hyp)| - CountOp(BestRows(ref, hyp), Match) == Dist(ref, hyp)
    ensures forall rows :: Aligns(rows, ref, hyp) ==> |rows| - CountOp(rows, Match) >= Dist(ref, hyp)
    ensures forall rows :: Aligns(rows, ref, hyp) && |rows| - CountOp(rows, Match) == Dist(ref, hyp) ==>
      rows == BestRows(ref, hyp) || BackwardsBefore(Ops(BestRows(ref, hyp)), Ops(rows))
  {
    BestScriptIsOptimal(ref, hyp);
    RowsAlign(ref, hyp, BestScript(ref, hyp));
    ValidRowsHaveOps(BestRows(ref, hyp));
    EditsAreNonMatches(BestRows(ref, hyp));
    forall rows | Aligns(rows, ref, hyp)
      ensures |rows| - CountOp(rows, Match) >= Dist(ref, hyp)
      ensures |rows| - CountOp(rows, Match) == Dist(ref, hyp) ==>
        rows == BestRows(ref, hyp) || BackwardsBefore(Ops(BestRows(ref, hyp)), Ops(rows))
    {
      RowsAreAScript(rows, ref, hyp);
      ValidRowsHaveOps(rows);
      EditsAreNonMatches(rows);
      DistIsLowerBound(ref, hyp, Ops(rows));
      if Edits(Ops(rows)) == Dist(ref, hyp) {
        BestScriptIsFirst(ref, hyp, Ops(rows));
      }
    }
  }

  lemma ValidRowsHaveOps(rows: seq<Alignment>)
    requires forall k :: 0 <= k < |rows| ==> ValidRow(rows[k])
    ensures forall k :: 0 <= k < |rows| ==> rows[k].op != Unset
  {
    forall k | 0 <= k < |rows|
      ensures rows[k].op != Unset
    {
      assert ValidRow(rows[k]);
    }
  }
}
