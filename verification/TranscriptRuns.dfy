/** Runs of the transcript store with engine failures anywhere: what appends,
    deletes, sweeps and enforcement leave, when a stored call has holes, and why
    the fixed read windows miss nothing. */
module TranscriptRuns {
  import opened Collections
  import opened Sequences
  import opened Reassembly
  import opened Transcripts

  /** An operation with how it failed, if it did, and what it reported; `capped`
      is the store between an append's two kinds of trim. Enforcement also runs on
      behalf of the other collections of the same engine. */
  datatype Op =
    | Appended(row: View, fault: AppendFault, capped: seq<View>, err: bool)
    | Deleted(owner: string, callId: string, fails: Option<nat>, removed: nat, err: bool)
    | Swept(cutoff: int, fails: Option<nat>, removed: nat, err: bool)
    | Enforced(whole: bool)

  ghost predicate Next(rows: seq<View>, op: Op, rows': seq<View>) {
    match op
    case Appended(v, fault, capped, err) => AppendVia(rows, v, fault, capped, rows', err)
    case Deleted(o, c, fails, removed, err) => DeleteStep(rows, o, c, fails, rows', removed, err)
    case Swept(cutoff, fails, removed, err) => SweepStep(rows, cutoff, fails, rows', removed, err)
    case Enforced(whole) => Ordered(rows') && CapsPartly(rows, rows') && (whole ==> CapsEnforced(rows, rows'))
  }

  /** Stamps come from a clock that always advances, keys are fresh. */
  ghost predicate IsNew(v: View, ops: seq<Op>) {
    forall i :: 0 <= i < |ops| && ops[i].Appended? ==> ops[i].row.seqNo < v.seqNo && ops[i].row.id != v.id
  }

  ghost predicate IsRun(states: seq<seq<View>>, ops: seq<Op>) {
    && |states| == |ops| + 1 && states[0] == []
    && forall i :: 0 <= i < |ops| ==>
         && Next(states[i], ops[i], states[i + 1])
         && (ops[i].Appended? ==> IsNew(ops[i].row, ops[..i]))
  }

  /** No engine call of the operation fails. */
  predicate Clean(op: Op) {
    match op
    case Appended(_, fault, _, _) => fault.NoFault?
    case Deleted(_, _, fails, _, _) => fails.None?
    case Swept(_, fails, _, _) => fails.None?
    case Enforced(whole) => whole
  }

  // ---- What became of one call ----

  /** Of one call, since the last delete that left nothing of it: the rows stored,
      the rows an interrupted trim or a partial delete took, whether a delete took
      any, and whether the last append stored its row but did not finish trimming. */
  datatype Past = Past(history: seq<View>, torn: set<View>, cut: bool, strained: bool)

  const NOTHING := Past([], {}, false, false)

  ghost function Lost(f: seq<View>, f': seq<View>): set<View> {
    set v | v in f && v !in f'
  }

  /** The append's trim stopped short of the cap. */
  ghost predicate Interrupted(fault: AppendFault, capped: seq<View>, o: string, c: string) {
    fault.TrimFails? && fault.passes < Excess(CallRows(capped, o, c), MAX_PER_CALL)
  }

  ghost function After(p: Past, rows: seq<View>, op: Op, rows': seq<View>, o: string, c: string): Past {
    if op.Appended? && InCall(o, c)(op.row) && !op.fault.ApplyFails? then
      var interrupted := Interrupted(op.fault, op.capped, o, c);
      Past(p.history + [op.row],
           p.torn + if interrupted then Lost(CallRows(op.capped, o, c), CallRows(rows', o, c)) else {},
           p.cut, op.fault.CapsFail? || interrupted)
    else if op.Deleted? && op.owner == o && op.callId == c then
      if CallRows(rows', o, c) == [] then NOTHING
      else p.(torn := p.torn + Lost(CallRows(rows, o, c), CallRows(rows', o, c)),
              cut := p.cut || CallRows(rows', o, c) != CallRows(rows, o, c))
    else p
  }

  ghost function Trace(states: seq<seq<View>>, ops: seq<Op>, o: string, c: string): Past
    requires |states| == |ops| + 1
  {
    if ops == [] then NOTHING
    else
      var n := |ops| - 1;
      After(Trace(states[..n + 1], ops[..n], o, c), states[n], ops[n], states[n + 1], o, c)
  }

  /** Some append to these rows stored its row but could not enforce the caps, and
      nothing has enforced them since. */
  predicate Uncapped(ops: seq<Op>, p: View -> bool) {
    ops != [] &&
    var before := Uncapped(ops[..|ops| - 1], p);
    match ops[|ops| - 1]
    case Appended(v, fault, _, _) =>
      (match fault
       case NoFault => false
       case TrimFails(_) => false
       case CapsFail(_, _) => p(v) || before
       case ApplyFails => before)
    case Enforced(whole) => !whole && before
    case _ => before
  }

  function Any(): View -> bool { (v: View) => true }

  // ---- The caps only drop the oldest rows ----

  lemma CallWithinOwner(rows: seq<View>, o: string, c: string)
    ensures CallRows(rows, o, c) == Filter(OwnerRows(rows, o), InCall(o, c))
  {
    FilterTwice(rows, InOwner(o), InCall(o, c));
  }

  lemma OwnersCappedSuffix(rows: seq<View>, rows': seq<View>, o: string, c: string)
    requires OwnersCapped(rows, rows')
    ensures IsSuffix(CallRows(rows', o, c), CallRows(rows, o, c))
    ensures IsSuffix(OwnerRows(rows', o), OwnerRows(rows, o)) && |OwnerRows(rows', o)| <= MAX_PER_EXTENSION
  {
    assert OwnerRows(rows', o) == Newest(OwnerRows(rows, o), MAX_PER_EXTENSION);
    NewestIsSuffix(OwnerRows(rows, o), MAX_PER_EXTENSION);
    CallWithinOwner(rows, o, c);
    CallWithinOwner(rows', o, c);
    FilterSuffix(OwnerRows(rows', o), OwnerRows(rows, o), InCall(o, c));
  }

  lemma CeilingSuffix(rows: seq<View>, o: string, c: string)
    ensures var rows' := Newest(rows, GLOBAL_CEILING);
      && IsSuffix(CallRows(rows', o, c), CallRows(rows, o, c))
      && IsSuffix(OwnerRows(rows', o), OwnerRows(rows, o))
  {
    NewestIsSuffix(rows, GLOBAL_CEILING);
    FilterSuffix(Newest(rows, GLOBAL_CEILING), rows, InCall(o, c));
    FilterSuffix(Newest(rows, GLOBAL_CEILING), rows, InOwner(o));
  }

  lemma CapsSuffix(rows: seq<View>, rows': seq<View>, o: string, c: string)
    requires CapsEnforced(rows, rows')
    ensures IsSuffix(CallRows(rows', o, c), CallRows(rows, o, c))
    ensures |OwnerRows(rows', o)| <= MAX_PER_EXTENSION
  {
    if OwnersCapped(Newest(rows, GLOBAL_CEILING), rows') {
      OwnersCappedSuffix(Newest(rows, GLOBAL_CEILING), rows', o, c);
      CeilingSuffix(rows, o, c);
    } else {
      var mid :| OwnersCapped(rows, mid) && rows' == Newest(mid, GLOBAL_CEILING);
      OwnersCappedSuffix(rows, mid, o, c);
      CeilingSuffix(mid, o, c);
    }
  }

  lemma CapsShrinkOwner(rows: seq<View>, rows': seq<View>, o: string)
    requires CapsEnforced(rows, rows')
    ensures |OwnerRows(rows', o)| <= |OwnerRows(rows, o)|
  {
    if OwnersCapped(Newest(rows, GLOBAL_CEILING), rows') {
      OwnersCappedSuffix(Newest(rows, GLOBAL_CEILING), rows', o, "");
      CeilingSuffix(rows, o, "");
    } else {
      var mid :| OwnersCapped(rows, mid) && rows' == Newest(mid, GLOBAL_CEILING);
      OwnersCappedSuffix(rows, mid, o, "");
      CeilingSuffix(mid, o, "");
    }
  }

  lemma SubsequenceSize(rows: seq<View>, rows': seq<View>)
    requires Ordered(rows') && forall v :: v in rows' ==> v in rows
    ensures |rows'| <= |rows|
  {
    assert Distinct(rows');
    DistinctSize(rows');
    forall x | x in Elements(rows') ensures x in Elements(rows) {
      var i :| 0 <= i < |rows'| && rows'[i] == x;
      assert x in rows' && x in rows;
    }
    SubsetSize(Elements(rows'), Elements(rows));
    ElementsSize(rows);
  }

  lemma CapsCeiling(rows: seq<View>, rows': seq<View>)
    requires CapsEnforced(rows, rows')
    ensures |rows'| <= GLOBAL_CEILING && |rows'| <= |rows|
  {
    if OwnersCapped(Newest(rows, GLOBAL_CEILING), rows') {
      SubsequenceSize(Newest(rows, GLOBAL_CEILING), rows');
    } else {
      var mid :| OwnersCapped(rows, mid) && rows' == Newest(mid, GLOBAL_CEILING);
      SubsequenceSize(rows, mid);
    }
  }

  // ---- The call trim touches nothing else ----

  lemma OtherCallThroughTrim(rows: seq<View>, rows': seq<View>, o: string, c: string, o': string, c': string)
    requires OtherRows(rows', o, c) == OtherRows(rows, o, c) && (o, c) != (o', c')
    ensures CallRows(rows', o', c') == CallRows(rows, o', c')
  {
    FilterTwice(rows, NotInCall(o, c), InCall(o', c'));
    FilterTwice(rows', NotInCall(o, c), InCall(o', c'));
  }

  /** Rows counted inside and outside one call. */
  lemma {:induction false} CountByCall(rows: seq<View>, o: string, c: string, o': string)
    ensures |OwnerRows(rows, o')| == (if o' == o then |CallRows(rows, o, c)| else 0) + |Filter(OtherRows(rows, o, c), InOwner(o'))|
    ensures |rows| == |CallRows(rows, o, c)| + |OtherRows(rows, o, c)|
  {
    if rows != [] {
      var rest, last := rows[..|rows| - 1], rows[|rows| - 1];
      CountByCall(rest, o, c, o');
      FilterConcat(OtherRows(rest, o, c), if NotInCall(o, c)(last) then [last] else [], InOwner(o'));
      assert Filter([last], InOwner(o')) == if InOwner(o')(last) then [last] else [];
    }
  }

  /** A call that only shrank, with nothing else changed, keeps the caps. */
  lemma ShrinkKeepsCaps(rows: seq<View>, rows': seq<View>, o: string, c: string, o': string)
    requires |CallRows(rows', o, c)| <= |CallRows(rows, o, c)|
    requires OtherRows(rows', o, c) == OtherRows(rows, o, c)
    ensures |rows'| <= |rows| && |OwnerRows(rows', o')| <= |OwnerRows(rows, o')|
  {
    CountByCall(rows, o, c, o');
    CountByCall(rows', o, c, o');
  }

  lemma PartlySuffix(rows: seq<View>, rows': seq<View>, o: string, c: string)
    requires CapsPartly(rows, rows')
    ensures IsSuffix(CallRows(rows', o, c), CallRows(rows, o, c))
    ensures |OwnerRows(rows', o)| <= |OwnerRows(rows, o)|
  {
    if rows' == Newest(rows, GLOBAL_CEILING) {
      CeilingSuffix(rows, o, c);
    } else if OwnersCapped(rows, rows') {
      OwnersCappedSuffix(rows, rows', o, c);
    } else if CapsEnforced(rows, rows') {
      CapsSuffix(rows, rows', o, c);
      CapsShrinkOwner(rows, rows', o);
    }
  }

  lemma PartlySize(rows: seq<View>, rows': seq<View>)
    requires CapsPartly(rows, rows')
    ensures |rows'| <= |rows|
  {
    if OwnersCapped(rows, rows') {
      SubsequenceSize(rows, rows');
    } else if CapsEnforced(rows, rows') {
      CapsCeiling(rows, rows');
    }
  }

  // ---- One call's rows ----

  /** The call's rows are ordered rows of its history, and a row of the history
      that is missing was torn out or is older than every row left. */
  ghost predicate Kept(f: seq<View>, h: seq<View>, torn: set<View>) {
    && Ordered(f) && Ordered(h)
    && (forall r :: r in f ==> r in h && r !in torn)
    && (forall w :: w in torn ==> w in h)
    && forall x :: x in h ==> x in f || x in torn || Precedes(x, f)
  }

  ghost predicate Precedes(x: View, f: seq<View>) {
    forall r :: r in f ==> x.seqNo < r.seqNo
  }

  lemma SuffixKept(f: seq<View>, h: seq<View>, torn: set<View>, f': seq<View>)
    requires Kept(f, h, torn) && IsSuffix(f', f)
    ensures Kept(f', h, torn)
  {
    var cut := |f| - |f'|;
    assert forall j :: 0 <= j < |f'| ==> f'[j] == f[cut + j];
    forall x | x in h && x in f ensures x in f' || Precedes(x, f') {
      var i :| 0 <= i < |f| && f[i] == x;
      if i >= cut { assert f'[i - cut] == x; }
    }
  }

  lemma AppendKept(f: seq<View>, h: seq<View>, torn: set<View>, v: View)
    requires Kept(f, h, torn) && forall r :: r in h ==> r.seqNo < v.seqNo && r.id != v.id
    ensures Kept(f + [v], h + [v], torn)
  {
    OrderedAppend(f, v);
    OrderedAppend(h, v);
  }

  lemma TornKept(f: seq<View>, h: seq<View>, torn: set<View>, f': seq<View>)
    requires Kept(f, h, torn) && Ordered(f') && forall r :: r in f' ==> r in f
    ensures Kept(f', h, torn + Lost(f, f'))
  {
  }

  /** Rows of an ordered history with nothing missing among or after them. */
  ghost predicate Closed(f: seq<View>, h: seq<View>) {
    && Ordered(f) && Ordered(h) && (forall r :: r in f ==> r in h)
    && forall x :: x in h ==> x in f || Precedes(x, f)
  }

  lemma {:induction false} ClosedIsSuffix(f: seq<View>, h: seq<View>)
    requires Closed(f, h)
    ensures IsSuffix(f, h)
  {
    if f != [] {
      ClosedWithoutLast(f, h);
      var f', h', last := f[..|f| - 1], h[..|h| - 1], f[|f| - 1];
      ClosedIsSuffix(f', h');
      SuffixAppend(f', h', last);
    }
  }

  lemma ClosedWithoutLast(f: seq<View>, h: seq<View>)
    requires Closed(f, h) && f != []
    ensures h != [] && Closed(f[..|f| - 1], h[..|h| - 1])
    ensures f == f[..|f| - 1] + [f[|f| - 1]] && h == h[..|h| - 1] + [f[|f| - 1]]
  {
    LastOfHistory(f, h);
    var f', h' := f[..|f| - 1], h[..|h| - 1];
    WithoutLast(f);
    WithoutLast(h);
    forall r | r in f' ensures r in h' { assert r in f; }
    forall x | x in h' ensures x in f' || Precedes(x, f') {
      assert x in h;
      if x !in f' { forall r | r in f' ensures x.seqNo < r.seqNo { assert r in f; } }
    }
  }

  lemma WithoutLast(f: seq<View>)
    requires f != [] && Ordered(f)
    ensures Ordered(f[..|f| - 1]) && forall r :: r in f[..|f| - 1] <==> r in f && r != f[|f| - 1]
    ensures f == f[..|f| - 1] + [f[|f| - 1]]
  {
    assert f == f[..|f| - 1] + [f[|f| - 1]];
  }

  lemma LastOfHistory(f: seq<View>, h: seq<View>)
    requires f != [] && Closed(f, h)
    ensures h != [] && h[|h| - 1] == f[|f| - 1]
  {
    var last := f[|f| - 1];
    assert last in f && last in h;
    var i :| 0 <= i < |h| && h[i] == last;
    var x := h[|h| - 1];
    assert x in h && last.seqNo <= x.seqNo;
    assert x in f;
    var j :| 0 <= j < |f| && f[j] == x;
  }

  lemma SuffixPlace(f: seq<View>, h: seq<View>, i: nat)
    requires IsSuffix(f, h) && i < |h|
    ensures i < |h| - |f| || h[i] in f
  {
    assert i >= |h| - |f| ==> h[i] == f[i - (|h| - |f|)];
  }

  /** No holes exactly when everything torn out is older than everything left. */
  lemma NoHolesIff(f: seq<View>, h: seq<View>, torn: set<View>)
    requires Kept(f, h, torn)
    ensures IsSuffix(f, h) <==> forall w :: w in torn ==> Precedes(w, f)
  {
    if IsSuffix(f, h) {
      var cut := |h| - |f|;
      forall w | w in torn ensures Precedes(w, f) {
        var i :| 0 <= i < |h| && h[i] == w;
        SuffixPlace(f, h, i);
        forall r | r in f ensures w.seqNo < r.seqNo {
          var j :| 0 <= j < |f| && f[j] == r;
          assert h[cut + j] == r;
        }
      }
    }
    if forall w :: w in torn ==> Precedes(w, f) {
      ClosedIsSuffix(f, h);
    }
  }

  // ---- The newest rows of one call ----

  ghost predicate Windowed(f: seq<View>, h: seq<View>) {
    IsSuffix(Newest(f, MAX_PER_CALL), h)
  }

  lemma SuffixWindowed(f: seq<View>, h: seq<View>, f': seq<View>)
    requires Windowed(f, h) && IsSuffix(f', f)
    ensures Windowed(f', h)
  {
    SuffixTransitive(Newest(f', MAX_PER_CALL), Newest(f, MAX_PER_CALL), h);
  }

  lemma AppendWindowed(f: seq<View>, h: seq<View>, v: View)
    requires Windowed(f, h)
    ensures Windowed(f + [v], h + [v])
  {
    var n := Newest(f, MAX_PER_CALL);
    SuffixAppend(n, h, v);
    SuffixTransitive(Newest(f + [v], MAX_PER_CALL), n + [v], h + [v]);
  }

  lemma TrimWindowed(f: seq<View>, h: seq<View>, k: nat)
    requires Windowed(f, h) && k <= Excess(f, MAX_PER_CALL)
    ensures Windowed(TrimmedBy(f, MAX_PER_CALL, k), h)
  {
    assert Newest(TrimmedBy(f, MAX_PER_CALL, k), MAX_PER_CALL) == Newest(f, MAX_PER_CALL);
  }

  // ---- Every operation keeps the invariant ----

  ghost predicate Known(h: seq<View>, ops: seq<Op>) {
    forall v :: v in h ==> exists i :: 0 <= i < |ops| && ops[i].Appended? && ops[i].row == v
  }

  ghost predicate CallOk(f: seq<View>, p: Past) {
    && Kept(f, p.history, p.torn)
    && (p.cut || Windowed(f, p.history))
    && (p.strained || |f| <= MAX_PER_CALL)
  }

  /** Trims, sweeps and the caps of an operation on something else. */
  lemma ShrinkKeeps(f: seq<View>, p: Past, f': seq<View>)
    requires CallOk(f, p) && IsSuffix(f', f)
    ensures CallOk(f', p)
  {
    SuffixKept(f, p.history, p.torn, f');
    if !p.cut { SuffixWindowed(f, p.history, f'); }
  }

  lemma StoredKeeps(f: seq<View>, p: Past, v: View, f': seq<View>)
    requires CallOk(f, p) && (forall r :: r in p.history ==> r.seqNo < v.seqNo && r.id != v.id)
    requires IsSuffix(f', f + [v])
    ensures CallOk(f', Past(p.history + [v], p.torn, p.cut, true))
  {
    AppendKept(f, p.history, p.torn, v);
    if !p.cut { AppendWindowed(f, p.history, v); }
    ShrinkKeeps(f + [v], Past(p.history + [v], p.torn, p.cut, true), f');
  }

  lemma TrimKeeps(f: seq<View>, p: Past, k: nat, f': seq<View>)
    requires CallOk(f, p) && k <= Excess(f, MAX_PER_CALL) && f' == TrimmedBy(f, MAX_PER_CALL, k) && Ordered(f')
    ensures k < Excess(f, MAX_PER_CALL) ==> CallOk(f', p.(torn := p.torn + Lost(f, f'), strained := true))
    ensures k == Excess(f, MAX_PER_CALL) ==> CallOk(f', p.(strained := false))
  {
    if k < Excess(f, MAX_PER_CALL) {
      TornKept(f, p.history, p.torn, f');
      if !p.cut { TrimWindowed(f, p.history, k); }
    } else {
      NewestIsSuffix(f, MAX_PER_CALL);
      assert f' == Newest(f, MAX_PER_CALL);
      ShrinkKeeps(f, p, f');
    }
  }

  lemma AppendedCallRows(rows: seq<View>, v: View, o: string, c: string)
    ensures CallRows(rows + [v], o, c) == if InCall(o, c)(v) then CallRows(rows, o, c) + [v] else CallRows(rows, o, c)
  {
    assert (rows + [v])[..|rows|] == rows;
  }

  /** Up to the trim of an append to the call. */
  lemma StoredAndCapped(rows: seq<View>, p: Past, v: View, capped: seq<View>, o: string, c: string)
    requires CallOk(CallRows(rows, o, c), p) && InCall(o, c)(v) && CapsPartly(rows + [v], capped)
    requires forall r :: r in p.history ==> r.seqNo < v.seqNo && r.id != v.id
    ensures CallOk(CallRows(capped, o, c), Past(p.history + [v], p.torn, p.cut, true))
  {
    AppendedCallRows(rows, v, o, c);
    PartlySuffix(rows + [v], capped, o, c);
    StoredKeeps(CallRows(rows, o, c), p, v, CallRows(capped, o, c));
  }

  lemma OwnAppendKeeps(rows: seq<View>, p: Past, op: Op, rows': seq<View>, o: string, c: string)
    requires CallOk(CallRows(rows, o, c), p) && Next(rows, op, rows')
    requires op.Appended? && InCall(o, c)(op.row) && !op.fault.ApplyFails?
    requires forall r :: r in p.history ==> r.seqNo < op.row.seqNo && r.id != op.row.id
    ensures CallOk(CallRows(rows', o, c), After(p, rows, op, rows', o, c))
  {
    StoredAndCapped(rows, p, op.row, op.capped, o, c);
    assert p.torn + {} == p.torn;
    if !op.fault.CapsFail? {
      TrimStepKeeps(op.capped, Past(p.history + [op.row], p.torn, p.cut, true), op.fault, rows', o, c, op.err);
    }
  }

  lemma TrimStepKeeps(rows: seq<View>, p: Past, fault: AppendFault, rows': seq<View>, o: string, c: string, err: bool)
    requires CallOk(CallRows(rows, o, c), p) && (fault.NoFault? || fault.TrimFails?)
    requires TrimStep(rows, o, c, if fault.TrimFails? then Some(fault.passes) else None, rows', err)
    ensures var f, f' := CallRows(rows, o, c), CallRows(rows', o, c);
      CallOk(f', if Interrupted(fault, rows, o, c) then p.(torn := p.torn + Lost(f, f'), strained := true) else p.(strained := false))
  {
    var f := CallRows(rows, o, c);
    var e := Excess(f, MAX_PER_CALL);
    OrderedFilter(rows', InCall(o, c));
    TrimKeeps(f, p, if fault.TrimFails? && fault.passes < e then fault.passes else e, CallRows(rows', o, c));
  }

  lemma OtherAppendShrinks(rows: seq<View>, op: Op, rows': seq<View>, o: string, c: string)
    requires Next(rows, op, rows') && op.Appended? && (InCall(o, c)(op.row) ==> op.fault.ApplyFails?)
    ensures IsSuffix(CallRows(rows', o, c), CallRows(rows, o, c))
  {
    if !op.fault.ApplyFails? {
      AppendedCallRows(rows, op.row, o, c);
      PartlySuffix(rows + [op.row], op.capped, o, c);
      if !op.fault.CapsFail? {
        OtherCallThroughTrim(op.capped, rows', op.row.seg.owner, op.row.seg.callId, o, c);
      }
    }
  }

  lemma OwnDeleteKeeps(rows: seq<View>, p: Past, op: Op, rows': seq<View>, o: string, c: string)
    requires CallOk(CallRows(rows, o, c), p) && Next(rows, op, rows')
    requires op.Deleted? && op.owner == o && op.callId == c
    ensures CallOk(CallRows(rows', o, c), After(p, rows, op, rows', o, c))
  {
    var f, f' := CallRows(rows, o, c), CallRows(rows', o, c);
    FilterMembers(rows, InCall(o, c));
    FilterMembers(rows', InCall(o, c));
    OrderedFilter(rows', InCall(o, c));
    if f' != [] {
      TornKept(f, p.history, p.torn, f');
    }
  }

  lemma OtherStepShrinks(rows: seq<View>, op: Op, rows': seq<View>, o: string, c: string)
    requires Next(rows, op, rows') && !op.Appended? && !(op.Deleted? && op.owner == o && op.callId == c)
    ensures IsSuffix(CallRows(rows', o, c), CallRows(rows, o, c))
  {
    match op
    case Deleted(o', c', _, _, _) => OtherCallThroughTrim(rows, rows', o', c', o, c);
    case Swept(_, _, removed, _) => FilterSuffix(rows', rows, InCall(o, c));
    case Enforced(_) => PartlySuffix(rows, rows', o, c);
  }

  lemma StepKeeps(rows: seq<View>, p: Past, op: Op, rows': seq<View>, o: string, c: string)
    requires CallOk(CallRows(rows, o, c), p) && Next(rows, op, rows')
    requires op.Appended? ==> forall r :: r in p.history ==> r.seqNo < op.row.seqNo && r.id != op.row.id
    ensures CallOk(CallRows(rows', o, c), After(p, rows, op, rows', o, c))
  {
    if op.Appended? && InCall(o, c)(op.row) && !op.fault.ApplyFails? {
      OwnAppendKeeps(rows, p, op, rows', o, c);
    } else if op.Deleted? && op.owner == o && op.callId == c {
      OwnDeleteKeeps(rows, p, op, rows', o, c);
    } else {
      if op.Appended? { OtherAppendShrinks(rows, op, rows', o, c); } else { OtherStepShrinks(rows, op, rows', o, c); }
      ShrinkKeeps(CallRows(rows, o, c), p, CallRows(rows', o, c));
    }
  }

  lemma RunPrefix(states: seq<seq<View>>, ops: seq<Op>, n: nat)
    requires IsRun(states, ops) && n <= |ops|
    ensures IsRun(states[..n + 1], ops[..n])
  {
    forall i | 0 <= i < n ensures ops[..n][..i] == ops[..i] {}
  }

  lemma KnownGrows(h: seq<View>, ops: seq<Op>, op: Op)
    requires Known(h, ops)
    ensures Known(h, ops + [op])
    ensures op.Appended? ==> Known(h + [op.row], ops + [op])
  {
    forall v | v in h ensures exists i :: 0 <= i < |ops + [op]| && (ops + [op])[i].Appended? && (ops + [op])[i].row == v {
      var i :| 0 <= i < |ops| && ops[i].Appended? && ops[i].row == v;
      assert (ops + [op])[i] == ops[i];
    }
    assert (ops + [op])[|ops|] == op;
  }

  lemma KnownIsOlder(h: seq<View>, ops: seq<Op>, v: View)
    requires Known(h, ops) && IsNew(v, ops)
    ensures forall r :: r in h ==> r.seqNo < v.seqNo && r.id != v.id
  {
  }

  lemma {:induction false} RunKeeps(states: seq<seq<View>>, ops: seq<Op>, o: string, c: string)
    requires IsRun(states, ops)
    ensures CallOk(CallRows(states[|ops|], o, c), Trace(states, ops, o, c))
    ensures Known(Trace(states, ops, o, c).history, ops)
  {
    if ops != [] {
      var n := |ops| - 1;
      RunPrefix(states, ops, n);
      RunKeeps(states[..n + 1], ops[..n], o, c);
      var p := Trace(states[..n + 1], ops[..n], o, c);
      assert ops == ops[..n] + [ops[n]];
      if ops[n].Appended? { KnownIsOlder(p.history, ops[..n], ops[n].row); }
      KnownGrows(p.history, ops[..n], ops[n]);
      StepKeeps(states[n], p, ops[n], states[n + 1], o, c);
    }
  }

  // ---- The caps over a run ----

  ghost predicate Capped(rows: seq<View>, ops: seq<Op>, o: string) {
    && (Uncapped(ops, InOwner(o)) || |OwnerRows(rows, o)| <= MAX_PER_EXTENSION)
    && (Uncapped(ops, Any()) || |rows| <= GLOBAL_CEILING)
  }

  lemma AppendedOwnerRows(rows: seq<View>, v: View, o: string)
    ensures |OwnerRows(rows + [v], o)| == |OwnerRows(rows, o)| + if v.seg.owner == o then 1 else 0
  {
    assert (rows + [v])[..|rows|] == rows;
  }

  /** Whole enforcement and a trim of one call leave every cap met. */
  lemma CappedAndTrimmed(rows: seq<View>, capped: seq<View>, rows': seq<View>, owner: string, callId: string,
                         passes: Option<nat>, err: bool, o: string)
    requires CapsEnforced(rows, capped) && TrimStep(capped, owner, callId, passes, rows', err)
    ensures |OwnerRows(rows', o)| <= MAX_PER_EXTENSION && |rows'| <= GLOBAL_CEILING
  {
    CapsSuffix(rows, capped, o, "");
    CapsCeiling(rows, capped);
    ShrinkKeepsCaps(capped, rows', owner, callId, o);
  }

  lemma AppendCaps(rows: seq<View>, ops: seq<Op>, op: Op, rows': seq<View>, o: string)
    requires Capped(rows, ops, o) && Next(rows, op, rows') && op.Appended?
    ensures Capped(rows', ops + [op], o)
  {
    assert (ops + [op])[..|ops|] == ops;
    var v, capped := op.row, op.capped;
    if op.fault.CapsFail? {
      AppendedOwnerRows(rows, v, o);
      PartlySuffix(rows + [v], rows', o, "");
    } else if !op.fault.ApplyFails? {
      CappedAndTrimmed(rows + [v], capped, rows', v.seg.owner, v.seg.callId,
                       if op.fault.TrimFails? then Some(op.fault.passes) else None, op.err, o);
    }
  }

  lemma EnforcedCaps(rows: seq<View>, ops: seq<Op>, whole: bool, rows': seq<View>, o: string)
    requires Capped(rows, ops, o) && Next(rows, Enforced(whole), rows')
    ensures Capped(rows', ops + [Enforced(whole)], o)
  {
    assert (ops + [Enforced(whole)])[..|ops|] == ops;
    if whole {
      CapsSuffix(rows, rows', o, "");
      CapsCeiling(rows, rows');
    } else {
      PartlySuffix(rows, rows', o, "");
      PartlySize(rows, rows');
    }
  }

  lemma StepCaps(rows: seq<View>, ops: seq<Op>, op: Op, rows': seq<View>, o: string)
    requires Capped(rows, ops, o) && Next(rows, op, rows')
    ensures Capped(rows', ops + [op], o)
  {
    assert (ops + [op])[..|ops|] == ops;
    match op
    case Appended(_, _, _, _) => AppendCaps(rows, ops, op, rows', o);
    case Deleted(o', c', _, _, _) => ShrinkKeepsCaps(rows, rows', o', c', o);
    case Swept(_, _, removed, _) => FilterSuffix(rows', rows, InOwner(o));
    case Enforced(whole) => EnforcedCaps(rows, ops, whole, rows', o);
  }

  lemma {:induction false} RunCaps(states: seq<seq<View>>, ops: seq<Op>, o: string)
    requires IsRun(states, ops)
    ensures Capped(states[|ops|], ops, o)
  {
    if ops != [] {
      var n := |ops| - 1;
      RunPrefix(states, ops, n);
      RunCaps(states[..n + 1], ops[..n], o);
      StepCaps(states[n], ops[..n], ops[n], states[n + 1], o);
      assert ops == ops[..n] + [ops[n]];
    }
  }

  // ---- Holes ----

  /** After any run, failures anywhere: a stored call is the newest part, without
      holes, of what was stored to it since the last delete that left nothing,
      exactly when every row an interrupted trim or a partial delete took since
      then is older than every row left. */
  lemma HolesIffTorn(states: seq<seq<View>>, ops: seq<Op>, owner: string, callId: string)
    requires IsRun(states, ops)
    ensures var f, p := CallRows(states[|ops|], owner, callId), Trace(states, ops, owner, callId);
      IsSuffix(f, p.history) <==> forall w :: w in p.torn ==> Precedes(w, f)
  {
    RunKeeps(states, ops, owner, callId);
    NoHolesIff(CallRows(states[|ops|], owner, callId),
               Trace(states, ops, owner, callId).history, Trace(states, ops, owner, callId).torn);
  }

  /** Trims never tear the read window: unless a delete of the call was cut short,
      its newest 1500 rows are the last ones stored, one after the other. */
  lemma ReadWindowHasNoHoles(states: seq<seq<View>>, ops: seq<Op>, owner: string, callId: string)
    requires IsRun(states, ops) && !Trace(states, ops, owner, callId).cut
    ensures IsSuffix(Newest(CallRows(states[|ops|], owner, callId), 1500), Trace(states, ops, owner, callId).history)
  {
    RunKeeps(states, ops, owner, callId);
  }

  /** After any run, one clean append restores every cap that concerns it, and
      heals the call it went to unless a delete of that was cut short. */
  lemma CleanAppendRestores(states: seq<seq<View>>, ops: seq<Op>, owner: string)
    requires IsRun(states, ops) && ops != []
    requires ops[|ops| - 1].Appended? && ops[|ops| - 1].fault.NoFault?
    ensures |states[|ops|]| <= 1_000_000 && |OwnerRows(states[|ops|], owner)| <= 5000
    ensures var seg := ops[|ops| - 1].row.seg;
      var f, p := CallRows(states[|ops|], seg.owner, seg.callId), Trace(states, ops, seg.owner, seg.callId);
      |f| <= 1500 && (!p.cut ==> IsSuffix(f, p.history))
  {
    var seg := ops[|ops| - 1].row.seg;
    RunCaps(states, ops, owner);
    RunKeeps(states, ops, seg.owner, seg.callId);
  }

  lemma {:induction false} CleanRunLeavesNoTrace(states: seq<seq<View>>, ops: seq<Op>, o: string, c: string, p: View -> bool)
    requires IsRun(states, ops) && forall i :: 0 <= i < |ops| ==> Clean(ops[i])
    ensures !Uncapped(ops, p)
    ensures var past := Trace(states, ops, o, c); past.torn == {} && !past.cut && !past.strained
  {
    if ops != [] {
      var n := |ops| - 1;
      RunPrefix(states, ops, n);
      CleanRunLeavesNoTrace(states[..n + 1], ops[..n], o, c, p);
      RunKeeps(states[..n + 1], ops[..n], o, c);
    }
  }

  /** After any run without failures every stored call is the newest part, without
      holes, of what was appended to it since its last delete, and all three caps
      hold. */
  lemma StoredCallsHaveNoHoles(states: seq<seq<View>>, ops: seq<Op>, owner: string, callId: string)
    requires IsRun(states, ops) && forall i :: 0 <= i < |ops| ==> Clean(ops[i])
    ensures IsSuffix(CallRows(states[|ops|], owner, callId), Trace(states, ops, owner, callId).history)
    ensures |CallRows(states[|ops|], owner, callId)| <= 1500
    ensures |OwnerRows(states[|ops|], owner)| <= 5000
    ensures |states[|ops|]| <= 1_000_000
  {
    CleanRunLeavesNoTrace(states, ops, owner, callId, InOwner(owner));
    CleanRunLeavesNoTrace(states, ops, owner, callId, Any());
    HolesIffTorn(states, ops, owner, callId);
    RunKeeps(states, ops, owner, callId);
    RunCaps(states, ops, owner);
  }

  // ---- The fixed read windows are wide enough ----

  /** After any run, failures anywhere: unless the last append to a call stored
      its row without finishing the trim, reading the call sees all of it and a
      delete that reports success leaves none of it. */
  lemma CallReadsAreComplete(states: seq<seq<View>>, ops: seq<Op>, owner: string, callId: string,
                             fails: Option<nat>, rows': seq<View>, removed: nat)
    requires IsRun(states, ops) && !Trace(states, ops, owner, callId).strained
    requires DeleteStep(states[|ops|], owner, callId, fails, rows', removed, false)
    ensures Newest(CallRows(states[|ops|], owner, callId), MAX_PER_CALL) == CallRows(states[|ops|], owner, callId)
    ensures CallRows(rows', owner, callId) == [] && removed == |CallRows(states[|ops|], owner, callId)|
  {
    RunKeeps(states, ops, owner, callId);
  }

  /** The one group an export holds for a call. */
  ghost predicate Exported(groups: seq<CallTranscript>, g: int, callId: string, lines: seq<string>) {
    0 <= g < |groups| && groups[g].callId == callId && groups[g].lines == lines
  }

  /** Every stored segment of the owner exactly once: one group per call, with
      all the call's texts in the order they were spoken, and no other group. */
  ghost predicate HoldsWholeHistory(rows: seq<View>, owner: string, groups: seq<CallTranscript>) {
    && (forall c :: CallRows(rows, owner, c) != [] ==>
          exists g :: Exported(groups, g, c, Texts(Segs(CallRows(rows, owner, c)))))
    && (forall g :: 0 <= g < |groups| ==> CallRows(rows, owner, groups[g].callId) != [])
    && (forall g, h :: 0 <= g < h < |groups| ==> groups[g].callId != groups[h].callId)
  }

  /** After any run, failures anywhere: an export with room for all calls holds
      the whole stored history, unless an append of the owner's stored its row and
      the caps have not been enforced since. */
  lemma ExportIsComplete(states: seq<seq<View>>, ops: seq<Op>, owner: string, maxCalls: nat, groups: seq<CallTranscript>)
    requires IsRun(states, ops) && !Uncapped(ops, InOwner(owner))
    requires IsReassembled(Reverse(Segs(Newest(OwnerRows(states[|ops|], owner), MAX_PER_EXTENSION))), maxCalls, groups)
    requires |Calls(Reverse(Segs(OwnerRows(states[|ops|], owner))))| <= maxCalls
    ensures HoldsWholeHistory(states[|ops|], owner, groups)
  {
    RunCaps(states, ops, owner);
    assert Newest(OwnerRows(states[|ops|], owner), MAX_PER_EXTENSION) == OwnerRows(states[|ops|], owner);
    ExportOfAll(states[|ops|], owner, Segs(OwnerRows(states[|ops|], owner)), maxCalls, groups);
  }

  lemma ExportOfAll(rows: seq<View>, owner: string, segs: seq<Segment>, maxCalls: nat, groups: seq<CallTranscript>)
    requires segs == Segs(OwnerRows(rows, owner))
    requires IsReassembled(Reverse(segs), maxCalls, groups) && |Calls(Reverse(segs))| <= maxCalls
    ensures HoldsWholeHistory(rows, owner, groups)
  {
    forall c | CallRows(rows, owner, c) != []
      ensures exists g :: Exported(groups, g, c, Texts(Segs(CallRows(rows, owner, c))))
    {
      CallSegs(rows, owner, c);
      var g := ExportedCall(segs, maxCalls, groups, c);
    }
    forall g | 0 <= g < |groups| ensures CallRows(rows, owner, groups[g].callId) != [] {
      GroupHasRows(segs, maxCalls, groups, g);
      CallSegs(rows, owner, groups[g].callId);
    }
    GroupsDiffer(segs, maxCalls, groups);
  }

  lemma GroupsDiffer(segs: seq<Segment>, maxCalls: nat, groups: seq<CallTranscript>)
    requires IsReassembled(Reverse(segs), maxCalls, groups)
    ensures forall g, h :: 0 <= g < h < |groups| ==> groups[g].callId != groups[h].callId
  {
    CallsAreDistinctIds(Reverse(segs));
  }

  /** A call with rows has its group, with its lines in spoken order. */
  lemma ExportedCall(segs: seq<Segment>, maxCalls: nat, groups: seq<CallTranscript>, c: string) returns (g: nat)
    requires IsReassembled(Reverse(segs), maxCalls, groups) && |Calls(Reverse(segs))| <= maxCalls
    requires RowsOf(segs, c) != []
    ensures Exported(groups, g, c, Texts(RowsOf(segs, c)))
  {
    FilterReverse(segs, HasCall(c));
    CallHasRows(Reverse(segs), c);
    g :| 0 <= g < |Calls(Reverse(segs))| && Calls(Reverse(segs))[g] == c;
    SpokenOrder(segs, c);
  }

  lemma GroupHasRows(segs: seq<Segment>, maxCalls: nat, groups: seq<CallTranscript>, g: nat)
    requires IsReassembled(Reverse(segs), maxCalls, groups) && g < |groups|
    ensures RowsOf(segs, groups[g].callId) != []
  {
    FilterReverse(segs, HasCall(groups[g].callId));
  }

  lemma CallSegs(rows: seq<View>, owner: string, c: string)
    ensures RowsOf(Segs(OwnerRows(rows, owner)), c) == Segs(CallRows(rows, owner, c))
  {
    var own := OwnerRows(rows, owner);
    SegsOfCall(own, c);
    CallWithinOwner(rows, owner, c);
    FilterMembers(rows, InOwner(owner));
    forall i | 0 <= i < |own| ensures OfCall(c)(own[i]) == InCall(owner, c)(own[i]) { assert own[i] in own; }
    FilterAgree(own, OfCall(c), InCall(owner, c));
  }
}
