/** Word and character edit distance: the dynamic-programming recurrence, the edit scripts
    it minimises over, the tie-break between equally cheap scripts, and the metric laws. */
module EditDistance {

  /** The alignment operations; `Unset` is the zero value of a cell no operation was stored in. */
  datatype Op = Unset | Match | Substitute | Delete | Insert

  function Priority(op: Op): nat {
    match op
    case Match => 0
    case Substitute => 1
    case Delete => 2
    case Insert => 3
    case Unset => 4
  }

  function Min3(a: int, b: int, c: int): (m: int)
    ensures m <= a && m <= b && m <= c && m in {a, b, c}
  {
    var m := a;
    var m := if b < m then b else m;
    if c < m then c else m
  }

  function Init<T>(s: seq<T>): seq<T>
    requires |s| > 0
  {
    s[..|s| - 1]
  }

  function Last<T>(s: seq<T>): T
    requires |s| > 0
  {
    s[|s| - 1]
  }

  function Cost<T(==)>(x: T, y: T): nat {
    if x == y then 0 else 1
  }

  /** The recurrence every table of the package fills in. */
  function Dist<T(==)>(ref: seq<T>, hyp: seq<T>): nat
    decreases |ref| + |hyp|
  {
    if |ref| == 0 then |hyp|
    else if |hyp| == 0 then |ref|
    else Min3(Dist(Init(ref), hyp) + 1,
              Dist(ref, Init(hyp)) + 1,
              Dist(Init(ref), Init(hyp)) + Cost(Last(ref), Last(hyp)))
  }

  /** The recurrence at a cell of the table, in terms of prefixes. */
  lemma {:induction false} DistAt<T>(ref: seq<T>, hyp: seq<T>, i: nat, j: nat)
    requires i <= |ref| && j <= |hyp|
    ensures i == 0 ==> Dist(ref[..i], hyp[..j]) == j
    ensures j == 0 ==> Dist(ref[..i], hyp[..j]) == i
    ensures i > 0 && j > 0 ==>
      Dist(ref[..i], hyp[..j]) == Min3(Dist(ref[..i - 1], hyp[..j]) + 1,
                                       Dist(ref[..i], hyp[..j - 1]) + 1,
                                       Dist(ref[..i - 1], hyp[..j - 1]) + Cost(ref[i - 1], hyp[j - 1]))
  {
    if i > 0 && j > 0 {
      assert Init(ref[..i]) == ref[..i - 1];
      assert Init(hyp[..j]) == hyp[..j - 1];
    }
  }

  /** The recurrence once, for the proofs that keep `Dist` hidden. */
  lemma {:induction false} DistUnfold<T>(a: seq<T>, b: seq<T>)
    ensures |a| == 0 ==> Dist(a, b) == |b|
    ensures |b| == 0 ==> Dist(a, b) == |a|
    ensures |a| > 0 && |b| > 0 ==>
      Dist(a, b) == Min3(Dist(Init(a), b) + 1, Dist(a, Init(b)) + 1,
                         Dist(Init(a), Init(b)) + Cost(Last(a), Last(b)))
  {
  }

  // ---------------------------------------------------------------- edit scripts

  /** `script` turns `ref` into `hyp`: a match pairs equal elements, a substitution unequal ones. */
  predicate Explains<T(==)>(ref: seq<T>, hyp: seq<T>, script: seq<Op>)
    decreases |script|
  {
    if |script| == 0 then |ref| == 0 && |hyp| == 0
    else match Last(script)
      case Match =>
        |ref| > 0 && |hyp| > 0 && Last(ref) == Last(hyp) && Explains(Init(ref), Init(hyp), Init(script))
      case Substitute =>
        |ref| > 0 && |hyp| > 0 && Last(ref) != Last(hyp) && Explains(Init(ref), Init(hyp), Init(script))
      case Delete => |ref| > 0 && Explains(Init(ref), hyp, Init(script))
      case Insert => |hyp| > 0 && Explains(ref, Init(hyp), Init(script))
      case Unset => false
  }

  /** The number of edits: every operation but a match costs one. */
  function Edits(script: seq<Op>): nat {
    if |script| == 0 then 0
    else Edits(Init(script)) + if Last(script) == Match then 0 else 1
  }

  /** No script is cheaper than the recurrence says. */
  lemma {:induction false} DistIsLowerBound<T>(ref: seq<T>, hyp: seq<T>, script: seq<Op>)
    requires Explains(ref, hyp, script)
    ensures Dist(ref, hyp) <= Edits(script)
    decreases |script|
  {
    if |script| > 0 {
      match Last(script)
      case Match => DistIsLowerBound(Init(ref), Init(hyp), Init(script));
      case Substitute => DistIsLowerBound(Init(ref), Init(hyp), Init(script));
      case Delete => DistIsLowerBound(Init(ref), hyp, Init(script));
      case Insert => DistIsLowerBound(ref, Init(hyp), Init(script));
    }
  }

  /** The operation stored at a cell: cheapest first, then diagonal, deletion, insertion. */
  function BestOp<T(==)>(ref: seq<T>, hyp: seq<T>): Op {
    if |ref| == 0 then (if |hyp| == 0 then Unset else Insert)
    else if |hyp| == 0 then Delete
    else if Dist(ref, hyp) == Dist(Init(ref), Init(hyp)) + Cost(Last(ref), Last(hyp)) then
      (if Last(ref) == Last(hyp) then Match else Substitute)
    else if Dist(ref, hyp) == Dist(Init(ref), hyp) + 1 then Delete
    else Insert
  }

  /** The script the traceback follows, first operation first. */
  function BestScript<T(==)>(ref: seq<T>, hyp: seq<T>): seq<Op>
    decreases |ref| + |hyp|
  {
    match BestOp(ref, hyp)
    case Unset => []
    case Delete => BestScript(Init(ref), hyp) + [Delete]
    case Insert => BestScript(ref, Init(hyp)) + [Insert]
    case op => BestScript(Init(ref), Init(hyp)) + [op]
  }

  /** What is left of the two sequences before the last operation `op`. */
  function RefBefore<T>(ref: seq<T>, op: Op): seq<T>
    requires op != Insert ==> |ref| > 0
  {
    if op == Insert then ref else Init(ref)
  }

  function HypBefore<T>(hyp: seq<T>, op: Op): seq<T>
    requires op != Delete ==> |hyp| > 0
  {
    if op == Delete then hyp else Init(hyp)
  }

  /** The stored operation is applicable and its step accounts for the distance. */
  lemma {:induction false} BestOpStep<T>(ref: seq<T>, hyp: seq<T>)
    requires |ref| + |hyp| > 0
    ensures var op := BestOp(ref, hyp);
      && op != Unset
      && (op != Insert ==> |ref| > 0)
      && (op != Delete ==> |hyp| > 0)
      && (op == Match ==> Last(ref) == Last(hyp))
      && (op == Substitute ==> Last(ref) != Last(hyp))
      && Dist(ref, hyp) == Dist(RefBefore(ref, op), HypBefore(hyp, op)) + if op == Match then 0 else 1
  {
    hide Dist;
    DistUnfold(ref, hyp);
    if |hyp| > 0 { DistUnfold(ref, Init(hyp)); }
    if |ref| > 0 { DistUnfold(Init(ref), hyp); }
  }

  lemma {:induction false} BestScriptUnfolds<T>(ref: seq<T>, hyp: seq<T>)
    requires |ref| + |hyp| > 0
    ensures var op, best := BestOp(ref, hyp), BestScript(ref, hyp);
      && (op != Insert ==> |ref| > 0)
      && (op != Delete ==> |hyp| > 0)
      && best != [] && Last(best) == op && Init(best) == BestScript(RefBefore(ref, op), HypBefore(hyp, op))
  {
    hide Dist, BestOp;
    BestOpStep(ref, hyp);
    var op := BestOp(ref, hyp);
    var rest := BestScript(RefBefore(ref, op), HypBefore(hyp, op));
    assert Init(rest + [op]) == rest;
  }

  /** The traced script is valid and as cheap as the corner of the table. */
  lemma {:induction false} BestScriptIsOptimal<T>(ref: seq<T>, hyp: seq<T>)
    ensures Explains(ref, hyp, BestScript(ref, hyp))
    ensures Edits(BestScript(ref, hyp)) == Dist(ref, hyp)
    decreases |ref| + |hyp|
  {
    if |ref| + |hyp| > 0 {
      hide Dist, BestOp, BestScript, Explains;
      BestOpStep(ref, hyp);
      BestScriptUnfolds(ref, hyp);
      var op := BestOp(ref, hyp);
      BestScriptIsOptimal(RefBefore(ref, op), HypBefore(hyp, op));
      ExtendedScript(ref, hyp, BestScript(ref, hyp));
    }
  }

  lemma {:induction false} ExtendedScript<T>(ref: seq<T>, hyp: seq<T>, script: seq<Op>)
    requires script != []
    requires var op := Last(script);
      && op != Unset
      && (op != Insert ==> |ref| > 0)
      && (op != Delete ==> |hyp| > 0)
      && (op == Match ==> Last(ref) == Last(hyp))
      && (op == Substitute ==> Last(ref) != Last(hyp))
      && Explains(RefBefore(ref, op), HypBefore(hyp, op), Init(script))
    ensures Explains(ref, hyp, script)
    ensures Edits(script) == Edits(Init(script)) + if Last(script) == Match then 0 else 1
  {
  }

  /** `s` comes before `t` when both are read from the last operation backwards. */
  predicate BackwardsBefore(s: seq<Op>, t: seq<Op>)
    decreases |s|
  {
    |s| > 0 && |t| > 0 &&
    (Priority(Last(s)) < Priority(Last(t)) ||
     (Last(s) == Last(t) && BackwardsBefore(Init(s), Init(t))))
  }

  /** A script that keeps to the minimum leaves an optimal rest, and its last operation is
      never preferred to the stored one. */
  lemma {:induction false} StoredOpIsPreferred<T>(ref: seq<T>, hyp: seq<T>, other: seq<Op>)
    requires |other| > 0 && Explains(ref, hyp, other)
    requires Edits(other) == Dist(ref, hyp)
    ensures Priority(BestOp(ref, hyp)) <= Priority(Last(other))
    ensures Edits(Init(other)) == Dist(RefBefore(ref, Last(other)), HypBefore(hyp, Last(other)))
  {
    DistIsLowerBound(RefBefore(ref, Last(other)), HypBefore(hyp, Last(other)), Init(other));
  }

  lemma SameEnds(s: seq<Op>, t: seq<Op>)
    requires s != [] && t != [] && Last(s) == Last(t) && Init(s) == Init(t)
    ensures s == t
  {
    assert s == Init(s) + [Last(s)] && t == Init(t) + [Last(t)];
  }

  lemma PriorityIsInjective(a: Op, b: Op)
    requires Priority(a) == Priority(b)
    ensures a == b
  {
  }

  /** Among all cheapest scripts the traced one is backwards-first in the order
      match, substitute, delete, insert. */
  lemma {:induction false} BestScriptIsFirst<T>(ref: seq<T>, hyp: seq<T>, other: seq<Op>)
    requires Explains(ref, hyp, other)
    requires Edits(other) == Dist(ref, hyp)
    ensures other == BestScript(ref, hyp) || BackwardsBefore(BestScript(ref, hyp), other)
    decreases |other|
  {
    if |other| > 0 {
      var op, best := Last(other), BestScript(ref, hyp);
      StoredOpIsPreferred(ref, hyp, other);
      BestScriptUnfolds(ref, hyp);
      if Priority(op) == Priority(BestOp(ref, hyp)) {
        PriorityIsInjective(op, BestOp(ref, hyp));
        BestScriptIsFirst(RefBefore(ref, op), HypBefore(hyp, op), Init(other));
        if Init(other) == Init(best) {
          SameEnds(other, best);
        }
      }
    }
  }

  // ---------------------------------------------------------------- metric laws

  lemma {:induction false} DistSymmetric<T>(a: seq<T>, b: seq<T>)
    ensures Dist(a, b) == Dist(b, a)
    decreases |a| + |b|
  {
    hide Dist;
    DistUnfold(a, b);
    DistUnfold(b, a);
    if |a| > 0 && |b| > 0 {
      DistSymmetric(Init(a), b);
      DistSymmetric(a, Init(b));
      DistSymmetric(Init(a), Init(b));
    }
  }

  /** The distance lies between the length difference and the larger length. */
  lemma {:induction false} DistBounds<T>(a: seq<T>, b: seq<T>)
    ensures |a| - |b| <= Dist(a, b) && |b| - |a| <= Dist(a, b)
    ensures Dist(a, b) <= |a| || Dist(a, b) <= |b|
    decreases |a| + |b|
  {
    hide Dist;
    DistUnfold(a, b);
    if |a| > 0 && |b| > 0 {
      DistBounds(Init(a), b);
      DistBounds(a, Init(b));
      DistBounds(Init(a), Init(b));
    }
  }

  /** Only equal sequences are at distance zero. */
  lemma {:induction false} DistZero<T>(a: seq<T>, b: seq<T>)
    ensures Dist(a, b) == 0 <==> a == b
    decreases |a| + |b|
  {
    hide Dist;
    DistUnfold(a, b);
    if |a| > 0 && |b| > 0 {
      DistZero(Init(a), Init(b));
      DistBounds(Init(a), b);
      DistBounds(a, Init(b));
      assert a == Init(a) + [Last(a)] && b == Init(b) + [Last(b)];
    }
  }

  lemma {:induction false} DistTriangle<T>(a: seq<T>, b: seq<T>, c: seq<T>)
    ensures Dist(a, c) <= Dist(a, b) + Dist(b, c)
    decreases |a| + |b| + |c|
  {
    hide Dist;
    DistUnfold(a, b);
    DistUnfold(b, c);
    DistUnfold(a, c);
    if |a| == 0 || |b| == 0 || |c| == 0 {
      DistBounds(a, b);
      DistBounds(b, c);
      DistBounds(a, c);
    } else {
      DistTriangle(Init(a), b, c);
      DistTriangle(a, b, Init(c));
      DistTriangle(a, Init(b), c);
      DistTriangle(a, Init(b), Init(c));
      DistTriangle(Init(a), Init(b), c);
      DistTriangle(Init(a), Init(b), Init(c));
    }
  }

  /** Distances add up under concatenation at most. */
  lemma {:induction false} DistSubadditive<T>(a: seq<T>, b: seq<T>, c: seq<T>, d: seq<T>)
    ensures Dist(a + c, b + d) <= Dist(a, b) + Dist(c, d)
    decreases |c| + |d|
  {
    hide Dist;
    DistUnfold(c, d);
    DistUnfold(a + c, b + d);
    if |c| > 0 {
      assert Init(a + c) == a + Init(c) && Last(a + c) == Last(c);
      DistSubadditive(a, b, Init(c), d);
    }
    if |d| > 0 {
      assert Init(b + d) == b + Init(d) && Last(b + d) == Last(d);
      DistSubadditive(a, b, c, Init(d));
    }
    if |c| > 0 && |d| > 0 {
      DistSubadditive(a, b, Init(c), Init(d));
    } else if |c| == 0 && |d| == 0 {
      assert a + c == a && b + d == b;
    } else {
      DistTailUnfold(a, b, c, d);
    }
  }

  /** With one tail empty, the other is deleted or inserted one element at a time. */
  lemma {:induction false} DistTailUnfold<T>(a: seq<T>, b: seq<T>, c: seq<T>, d: seq<T>)
    ensures |c| > 0 && |d| == 0 ==> Dist(a + c, b + d) <= Dist(Init(a + c), b + d) + 1 && Dist(Init(c), d) == |c| - 1
    ensures |d| > 0 && |c| == 0 ==> Dist(a + c, b + d) <= Dist(a + c, Init(b + d)) + 1 && Dist(c, Init(d)) == |d| - 1
  {
    hide Dist;
    DistUnfold(a + c, b + d);
    if |c| > 0 {
      DistUnfold(Init(a + c), b + d);
      DistUnfold(Init(c), d);
    }
    if |d| > 0 {
      DistUnfold(a + c, Init(b + d));
      DistUnfold(c, Init(d));
    }
  }

  /** Replacing one element moves the distance by at most one, in either direction. */
  lemma {:induction false} OneWordChange<T>(ref: seq<T>, hyp: seq<T>, k: nat, w: T)
    requires k < |hyp|
    ensures Dist(ref, hyp[k := w]) <= Dist(ref, hyp) + 1
    ensures Dist(ref, hyp) <= Dist(ref, hyp[k := w]) + 1
  {
    var changed := hyp[k := w];
    var head, tail := hyp[..k], hyp[k + 1..];
    assert hyp == head + ([hyp[k]] + tail) && changed == head + ([w] + tail);
    hide Dist;
    DistBounds([hyp[k]], [w]);
    DistZero(head, head);
    DistZero(tail, tail);
    DistSubadditive([hyp[k]], [w], tail, tail);
    DistSubadditive(head, head, [hyp[k]] + tail, [w] + tail);
    DistSymmetric(hyp, changed);
    DistTriangle(ref, hyp, changed);
    DistTriangle(ref, changed, hyp);
  }
}
