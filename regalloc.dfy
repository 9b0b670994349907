/**
 * The ARM32 backend's simple register allocator (`SimpleRegisterAllocator`).
 *
 * A register file of `n` registers (`PlatformArm32::maxUsableRegNum`) is kept
 * as an occupancy bitmap (`true` = occupied) and an "ever used" bitmap.
 * Values holding a register sit in the queue `regValues` in allocation order;
 * the register each one holds (its load register) is kept in `loadReg`, where
 * an absent key stands for the source's load register -1.
 *
 * The transitions are first given as functions over `RegState`, the part of
 * the allocator every operation may change; the class `Allocator` then
 * implements each operation with the source's loops and is proved to move
 * its state exactly as the matching function says.
 */
module RegAlloc {
  import opened Common
  import opened IR

  // ---------------------------------------------------------------------------
  // Classification of temporaries by name (`isTempVariable`)
  // ---------------------------------------------------------------------------

  /** `l` followed by a non-empty run of digits whose value is above 5. */
  predicate IsLocalNumberAbove5(name: string) {
    |name| > 1 && name[0] == 'l' && AllDigits(name[1..]) && DecimalValue(name[1..]) > 5
  }

  /** The tests of `isTempVariable` in the order the source makes them. */
  predicate IsTempName(name: string) {
    if |name| == 0 then true
    else if name[0] == 't' then true
    else if |name| > 1 && name[0] == 'l' && AllDigits(name[1..]) then DecimalValue(name[1..]) > 5
    else Contains(name, "tmp")
  }

  /** `isTempVariable(var)`: false for a null value, otherwise the name test. */
  function IsTempVariable(v: Option<Value>): (b: bool)
    ensures b ==> v.Some?
  {
    v.Some? && IsTempName(v.value.name)
  }

  lemma {:induction false} DigitsContainNoTmp(s: string)
    requires AllDigits(s)
    ensures !Contains(s, "tmp")
    decreases |s|
  {
    if |s| > 0 {
      assert AllDigits(s[1..]) by {
        forall i | 0 <= i < |s[1..]| ensures IsDigit(s[1..][i]) {
          assert s[1..][i] == s[i + 1];
        }
      }
      DigitsContainNoTmp(s[1..]);
      assert !StartsWith(s, "tmp") by {
        if |s| >= 3 {
          assert s[..3][0] == s[0];
        }
      }
    }
  }

  /** The classifier as one disjunction: empty, starts with 't', `l<n>` with n > 5, or contains "tmp". */
  lemma IsTempNameIff(name: string)
    ensures IsTempName(name) <==>
      (|name| == 0 || name[0] == 't' || IsLocalNumberAbove5(name) || Contains(name, "tmp"))
  {
    if |name| > 1 && name[0] == 'l' && AllDigits(name[1..]) {
      DigitsContainNoTmp(name[1..]);
      assert !StartsWith(name, "tmp");
    }
  }

  /** "l5" is not a temporary, "l6" is, and an underscore before 't' is nothing special. */
  lemma IsTempNameExamples()
    ensures !IsTempName("l5") && IsTempName("l6") && IsTempName("l12")
    ensures !IsTempName("_t") && IsTempName("t1") && IsTempName("")
    ensures IsTempName("xtmp")
  {
    assert "l5"[1..] == "5";
    assert "l6"[1..] == "6";
    assert "l12"[1..] == "12" && "12"[..1] == "1";
    assert !StartsWith("_t", "tmp") && !StartsWith("t", "tmp") && "_t"[1..] == "t";
    assert "t"[1..] == "";
    assert "xtmp"[1..] == "tmp" && StartsWith("tmp", "tmp");
  }

  /** The first tier's test `isTempVariable(v) && (name empty || name[0] == 't')` is just the second half. */
  lemma TierOneNames(name: string)
    ensures (IsTempName(name) && (|name| == 0 || name[0] == 't')) <==> (|name| == 0 || name[0] == 't')
  {
  }

  // ---------------------------------------------------------------------------
  // Sequences of queued values
  // ---------------------------------------------------------------------------

  ghost predicate Distinct(q: seq<Value>) {
    forall i, j :: 0 <= i < j < |q| ==> q[i] != q[j]
  }

  /** The set of elements of `vs`. */
  function Members(vs: seq<Value>): (S: set<Value>)
  {
    if |vs| == 0 then {} else Members(vs[..|vs| - 1]) + {vs[|vs| - 1]}
  }

  lemma {:induction false} MembersSpec(vs: seq<Value>)
    ensures forall x :: x in Members(vs) <==> x in vs
    decreases |vs|
  {
    if |vs| > 0 {
      MembersSpec(vs[..|vs| - 1]);
      assert vs == vs[..|vs| - 1] + [vs[|vs| - 1]];
    }
  }

  /** Position of `v` in `q` (`std::find`). */
  function IndexOf(q: seq<Value>, v: Value): (i: int)
    requires v in q
    ensures 0 <= i < |q| && q[i] == v && forall j :: 0 <= j < i ==> q[j] != v
  {
    if q[0] == v then 0 else 1 + IndexOf(q[1..], v)
  }

  /** Position of the first queued value holding register `no`, or -1 (`std::find_if`). */
  function OwnerIndex(q: seq<Value>, lr: map<Value, int>, no: int): (i: int)
    requires forall j :: 0 <= j < |q| ==> q[j] in lr
    ensures -1 <= i < |q|
    ensures i == -1 <==> forall j :: 0 <= j < |q| ==> lr[q[j]] != no
    ensures i != -1 ==> lr[q[i]] == no && forall j :: 0 <= j < i ==> lr[q[j]] != no
  {
    if |q| == 0 then -1
    else if lr[q[0]] == no then 0
    else
      var k := OwnerIndex(q[1..], lr, no);
      if k == -1 then -1 else k + 1
  }

  /** `q` without the members of `S`, the others kept in their order. */
  function Except(q: seq<Value>, S: set<Value>): (r: seq<Value>)
    ensures |r| <= |q|
  {
    if |q| == 0 then []
    else Except(q[..|q| - 1], S) + (if q[|q| - 1] in S then [] else [q[|q| - 1]])
  }

  lemma {:induction false} ExceptMembers(q: seq<Value>, S: set<Value>)
    ensures forall x :: x in Except(q, S) <==> x in q && x !in S
    decreases |q|
  {
    if |q| > 0 {
      var p := q[..|q| - 1];
      ExceptMembers(p, S);
      assert q == p + [q[|q| - 1]];
    }
  }

  lemma {:induction false} ExceptUnion(q: seq<Value>, A: set<Value>, B: set<Value>)
    ensures Except(Except(q, A), B) == Except(q, A + B)
    decreases |q|
  {
    if |q| > 0 {
      var p := q[..|q| - 1];
      var x := q[|q| - 1];
      ExceptUnion(p, A, B);
      if x !in A {
        var e := Except(q, A);
        assert e == Except(p, A) + [x];
        assert e[..|e| - 1] == Except(p, A) && e[|e| - 1] == x;
        assert Except(e, B) == Except(Except(p, A), B) + (if x in B then [] else [x]);
      } else {
        assert Except(q, A) == Except(p, A);
      }
    }
  }

  lemma {:induction false} ExceptNothing(q: seq<Value>, S: set<Value>)
    requires forall x :: x in q ==> x !in S
    ensures Except(q, S) == q
    decreases |q|
  {
    if |q| > 0 {
      ExceptNothing(q[..|q| - 1], S);
    }
  }

  lemma {:induction false} ExceptRemovesAt(q: seq<Value>, i: int)
    requires Distinct(q) && 0 <= i < |q|
    ensures q[..i] + q[i + 1..] == Except(q, {q[i]})
    decreases |q|
  {
    var p := q[..|q| - 1];
    var last := q[|q| - 1];
    assert Except(q, {q[i]}) == Except(p, {q[i]}) + (if last in {q[i]} then [] else [last]);
    if i == |q| - 1 {
      ExceptNothing(p, {q[i]});
      assert q[..i] == p;
    } else {
      assert Distinct(p) && p[i] == q[i] && last != q[i];
      ExceptRemovesAt(p, i);
      assert p[..i] == q[..i] && q[i + 1..] == p[i + 1..] + [last];
    }
  }

  /** Extending a prefix by one element. */
  lemma PrefixStep(q: seq<Value>, j: int)
    requires 0 <= j < |q|
    ensures q[..j + 1] == q[..j] + [q[j]] && q[..j + 1][..j] == q[..j]
  {
  }

  lemma {:induction false} RemoveAtKeepsDistinct(q: seq<Value>, i: int)
    requires Distinct(q) && 0 <= i < |q|
    ensures Distinct(q[..i] + q[i + 1..])
    ensures forall x :: x in q[..i] + q[i + 1..] <==> x in q && x != q[i]
  {
    var r := q[..i] + q[i + 1..];
    forall a, b | 0 <= a < b < |r|
      ensures r[a] != r[b]
    {
      var a' := if a < i then a else a + 1;
      var b' := if b < i then b else b + 1;
      assert r[a] == q[a'] && r[b] == q[b'];
    }
    forall x
      ensures x in r <==> x in q && x != q[i]
    {
      if x in q && x != q[i] {
        var k :| 0 <= k < |q| && q[k] == x;
        if k < i {
          assert r[k] == x;
        } else {
          assert r[k - 1] == x;
        }
      }
      if x in r {
        var k :| 0 <= k < |r| && r[k] == x;
        if k < i {
          assert q[k] == x;
        } else {
          assert q[k + 1] == x;
        }
      }
    }
  }

  // ---------------------------------------------------------------------------
  // Register bitmaps
  // ---------------------------------------------------------------------------

  /** Lowest register in `[lo, hi)` whose bit is clear, or -1: the scanning `for` loops. */
  function FirstFree(bits: seq<bool>, lo: int, hi: int): (k: int)
    requires 0 <= lo <= hi <= |bits|
    ensures k == -1 <==> (forall i :: lo <= i < hi ==> bits[i])
    ensures k != -1 ==> lo <= k < hi && !bits[k] && (forall i :: lo <= i < k ==> bits[i])
    decreases hi - lo
  {
    if lo == hi then -1 else if !bits[lo] then lo else FirstFree(bits, lo + 1, hi)
  }

  /** Number of clear bits (`getAvailableRegCount`). */
  function FreeCount(bits: seq<bool>): (c: nat)
    ensures c <= |bits|
  {
    if |bits| == 0 then 0 else FreeCount(bits[..|bits| - 1]) + (if bits[|bits| - 1] then 0 else 1)
  }

  /** Occupying a free register lowers the number of free registers by exactly one. */
  lemma {:induction false} FreeCountOccupy(bits: seq<bool>, k: int)
    requires 0 <= k < |bits| && !bits[k]
    ensures FreeCount(bits[k := true]) == FreeCount(bits) - 1
    decreases |bits|
  {
    var m := |bits| - 1;
    if k == m {
      assert bits[k := true][..m] == bits[..m];
    } else {
      assert bits[k := true][..m] == bits[..m][k := true];
      FreeCountOccupy(bits[..m], k);
    }
  }

  /** Some register is free exactly when the free count is positive. */
  lemma {:induction false} FreeCountPositive(bits: seq<bool>)
    ensures FreeCount(bits) > 0 <==> exists k :: 0 <= k < |bits| && !bits[k]
    decreases |bits|
  {
    if |bits| > 0 {
      var m := |bits| - 1;
      FreeCountPositive(bits[..m]);
      if exists k :: 0 <= k < |bits| && !bits[k] {
        var k :| 0 <= k < |bits| && !bits[k];
        if k < m {
          assert !bits[..m][k];
        }
      }
      if exists k :: 0 <= k < m && !bits[..m][k] {
        var k :| 0 <= k < m && !bits[..m][k];
        assert !bits[k];
      }
    }
  }

  // ---------------------------------------------------------------------------
  // Allocator state and its invariant
  // ---------------------------------------------------------------------------

  /** The fields every allocator operation may change. */
  datatype RegState = RegState(
    regBitmap: seq<bool>,
    usedBitmap: seq<bool>,
    regValues: seq<Value>,
    loadReg: map<Value, int>,
    dynamicTempAllocations: map<string, int>,
    tempVarPriority: map<Value, int>)

  /**
   * The binding invariant: a value is queued iff it holds a load register, the
   * queue has no repetitions, no two values hold the same register, every held
   * register is marked occupied, and every occupied register is marked used.
   */
  ghost predicate Inv(s: RegState, n: nat) {
    |s.regBitmap| == n && |s.usedBitmap| == n
    && Distinct(s.regValues)
    && (forall v :: v in s.loadReg <==> v in s.regValues)
    && (forall v :: v in s.loadReg ==> 0 <= s.loadReg[v] < n && s.regBitmap[s.loadReg[v]])
    && (forall v, w :: v in s.loadReg && w in s.loadReg && v != w ==> s.loadReg[v] != s.loadReg[w])
    && (forall k :: 0 <= k < n && s.regBitmap[k] ==> s.usedBitmap[k])
  }

  /** A freshly constructed allocator: nothing occupied, nothing used, nothing queued. */
  function EmptyState(n: nat): (s: RegState)
    ensures Inv(s, n) && FreeCount(s.regBitmap) == n
  {
    var s := RegState(seq(n, _ => false), seq(n, _ => false), [], map[], map[], map[]);
    AllFreeCount(s.regBitmap);
    s
  }

  lemma {:induction false} AllFreeCount(bits: seq<bool>)
    requires forall i :: 0 <= i < |bits| ==> !bits[i]
    ensures FreeCount(bits) == |bits|
    decreases |bits|
  {
    if |bits| > 0 {
      AllFreeCount(bits[..|bits| - 1]);
    }
  }

  /** `bitmapSet`: mark `k` occupied and used. */
  function Occupy(s: RegState, k: int): RegState
    requires 0 <= k < |s.regBitmap| && |s.usedBitmap| == |s.regBitmap|
  {
    s.(regBitmap := s.regBitmap[k := true], usedBitmap := s.usedBitmap[k := true])
  }

  /** Marking a register occupied and used keeps the invariant. */
  lemma OccupyKeepsInv(s: RegState, k: int, n: nat)
    requires Inv(s, n) && 0 <= k < n
    ensures Inv(Occupy(s, k), n)
  {
  }

  /** Bind `v` to register `k`: set its load register and append it to the queue. */
  function Bind(s: RegState, v: Value, k: int): RegState {
    s.(regValues := s.regValues + [v], loadReg := s.loadReg[v := k])
  }

  /** Load register of `v`, -1 when it holds none. */
  function LoadRegOf(s: RegState, v: Value): int {
    if v in s.loadReg then s.loadReg[v] else -1
  }

  /** `usedBitmap` of `t` includes that of `s`. */
  predicate UsedGrows(s: RegState, t: RegState) {
    |t.usedBitmap| == |s.usedBitmap|
    && forall k :: 0 <= k < |s.usedBitmap| && s.usedBitmap[k] ==> t.usedBitmap[k]
  }

  // ---------------------------------------------------------------------------
  // free(Value*) and free(int32_t)
  // ---------------------------------------------------------------------------

  /** Drop queue entry `i` and its value's load register. */
  function Dequeue(s: RegState, i: int, n: nat): (r: RegState)
    requires Inv(s, n) && 0 <= i < |s.regValues|
    ensures Inv(r, n)
  {
    var x := s.regValues[i];
    RemoveAtKeepsDistinct(s.regValues, i);
    s.(regValues := s.regValues[..i] + s.regValues[i + 1..], loadReg := s.loadReg - {x})
  }

  /** Drop queue entry `i`: unbind its value and erase the value's temporary records. */
  function UnbindAt(s: RegState, i: int, n: nat): (r: RegState)
    requires Inv(s, n) && 0 <= i < |s.regValues|
    ensures Inv(r, n)
  {
    var x := s.regValues[i];
    var t := Dequeue(s, i, n);
    t.(dynamicTempAllocations := t.dynamicTempAllocations - {x.name},
       tempVarPriority := t.tempVarPriority - {x})
  }

  /** Mark register `k`, which no value holds, as free. */
  function ClearBit(s: RegState, k: int, n: nat): (r: RegState)
    requires Inv(s, n) && 0 <= k < n
    requires forall y :: y in s.loadReg ==> s.loadReg[y] != k
    ensures Inv(r, n)
  {
    s.(regBitmap := s.regBitmap[k := false])
  }

  /** `free(var)`: release the register of a bound value and forget its temporary records. */
  function FreeValueSpec(s: RegState, v: Option<Value>, n: nat): (r: RegState)
    requires Inv(s, n)
    ensures Inv(r, n)
  {
    if v.Some? && v.value in s.loadReg then
      var x := v.value;
      var t := UnbindAt(s, IndexOf(s.regValues, x), n);
      ClearBit(t, s.loadReg[x], n)
    else s
  }

  /** `free(no)`: clear the bit of `no` and unbind the first queued value holding it, if any. */
  function FreeRegSpec(s: RegState, no: int, n: nat): (r: RegState)
    requires Inv(s, n) && (no == -1 || 0 <= no < n)
    ensures Inv(r, n)
  {
    if no == -1 then s
    else
      var i := OwnerIndex(s.regValues, s.loadReg, no);
      var t := if i == -1 then s else UnbindAt(s, i, n);
      ClearBit(t, no, n)
  }

  /** Freeing a bound value clears exactly its bit, unbinds and dequeues it, and erases its records. */
  lemma FreeValueEffect(s: RegState, x: Value, n: nat)
    requires Inv(s, n) && x in s.loadReg
    ensures var r := FreeValueSpec(s, Some(x), n);
      r.regBitmap == s.regBitmap[s.loadReg[x] := false]
      && r.loadReg == s.loadReg - {x}
      && r.tempVarPriority == s.tempVarPriority - {x}
      && r.dynamicTempAllocations == s.dynamicTempAllocations - {x.name}
      && r.usedBitmap == s.usedBitmap
      && r.regValues == Except(s.regValues, {x})
  {
    UnbindAtQueue(s, IndexOf(s.regValues, x), n);
  }

  /** `free` of a null or unbound value, and `free(-1)`, change nothing. */
  lemma FreeNoOps(s: RegState, v: Option<Value>, n: nat)
    requires Inv(s, n)
    ensures (v.None? || v.value !in s.loadReg) ==> FreeValueSpec(s, v, n) == s
    ensures FreeRegSpec(s, -1, n) == s
  {
  }

  /** Freeing a register clears its bit, unbinds its owner if there is one, and touches no other register. */
  lemma FreeRegEffect(s: RegState, no: int, n: nat)
    requires Inv(s, n) && 0 <= no < n
    ensures var r := FreeRegSpec(s, no, n);
      r.regBitmap == s.regBitmap[no := false]
      && r.loadReg == s.loadReg - Owners(s, no)
      && r.usedBitmap == s.usedBitmap
  {
    var i := OwnerIndex(s.regValues, s.loadReg, no);
    OwnersOfOwnerIndex(s, no, n);
    if i != -1 {
      assert FreeRegSpec(s, no, n).loadReg == s.loadReg - {s.regValues[i]};
    } else {
      assert FreeRegSpec(s, no, n).loadReg == s.loadReg;
    }
  }

  /** The owners of `no` are the value `OwnerIndex` finds, or none. */
  lemma OwnersOfOwnerIndex(s: RegState, no: int, n: nat)
    requires Inv(s, n)
    ensures var i := OwnerIndex(s.regValues, s.loadReg, no);
      Owners(s, no) == if i == -1 then {} else {s.regValues[i]}
  {
    var i := OwnerIndex(s.regValues, s.loadReg, no);
    if i == -1 {
      forall y | y in s.loadReg ensures s.loadReg[y] != no {
        var j :| 0 <= j < |s.regValues| && s.regValues[j] == y;
      }
    }
  }

  /** Unbinding entry `i` removes exactly that value from the queue. */
  lemma UnbindAtQueue(s: RegState, i: int, n: nat)
    requires Inv(s, n) && 0 <= i < |s.regValues|
    ensures UnbindAt(s, i, n).regValues == Except(s.regValues, {s.regValues[i]})
  {
    ExceptRemovesAt(s.regValues, i);
  }

  /** Freeing a register takes its owner out of the queue and keeps the other values in order. */
  lemma FreeRegDequeues(s: RegState, no: int, n: nat)
    requires Inv(s, n) && 0 <= no < n
    ensures FreeRegSpec(s, no, n).regValues == Except(s.regValues, Owners(s, no))
  {
    var i := OwnerIndex(s.regValues, s.loadReg, no);
    OwnersOfOwnerIndex(s, no, n);
    if i != -1 {
      UnbindAtQueue(s, i, n);
      assert FreeRegSpec(s, no, n).regValues == UnbindAt(s, i, n).regValues;
    } else {
      ExceptNothing(s.regValues, {});
      assert FreeRegSpec(s, no, n).regValues == s.regValues;
    }
  }

  /** The values bound to register `no`. */
  ghost function Owners(s: RegState, no: int): set<Value> {
    set y | y in s.loadReg && s.loadReg[y] == no
  }

  /** A register handed out by `Allocate()` with no value is released only by `free(no)`. */
  lemma ScratchRegisterNeedsFreeReg(s: RegState, no: int, v: Option<Value>, n: nat)
    requires Inv(s, n) && 0 <= no < n && s.regBitmap[no]
    requires forall y :: y in s.loadReg ==> s.loadReg[y] != no
    ensures FreeValueSpec(s, v, n).regBitmap[no]
    ensures !FreeRegSpec(s, no, n).regBitmap[no]
  {
  }

  // ---------------------------------------------------------------------------
  // Allocate(Value*, int32_t) and the forced Allocate(int32_t)
  // ---------------------------------------------------------------------------

  /**
   * What `Allocate` demands of its caller: a requested register is in range, and
   * when the value is unbound and no register is free the queue holds a value
   * to evict (the source takes `regValues.front()`).
   */
  ghost predicate AllocatePre(s: RegState, v: Option<Value>, no: int, n: nat) {
    (no == -1 || 0 <= no < n)
    && ((v.Some? && v.value in s.loadReg)
        || (exists k :: 0 <= k < |s.regBitmap| && !s.regBitmap[k])
        || |s.regValues| > 0)
  }

  /** `Allocate(var, no)`: the new state and the register returned. */
  function AllocateSpec(s: RegState, v: Option<Value>, no: int, n: nat): (r: (RegState, int))
    requires Inv(s, n) && AllocatePre(s, v, no, n)
    ensures Inv(r.0, n) && 0 <= r.1 < n
  {
    if v.Some? && v.value in s.loadReg then (s, s.loadReg[v.value])
    else
      var regno := ChooseRegister(s, no, n);
      if regno != -1 then (OccupyFree(s, v, regno, n), regno)
      else EvictOldest(s, v, n)
  }

  /** The requested register when it is free, otherwise the lowest free one, otherwise -1. */
  function ChooseRegister(s: RegState, no: int, n: nat): (k: int)
    requires |s.regBitmap| == n && (no == -1 || 0 <= no < n)
    ensures k == -1 <==> (forall i :: 0 <= i < n ==> s.regBitmap[i])
    ensures k != -1 ==> 0 <= k < n && !s.regBitmap[k]
  {
    if no != -1 && !s.regBitmap[no] then no else FirstFree(s.regBitmap, 0, n)
  }

  /** Bind `v` to the occupied register `k` that no value holds. */
  function BindUnowned(s: RegState, v: Value, k: int, n: nat): (r: RegState)
    requires Inv(s, n) && 0 <= k < n && s.regBitmap[k] && v !in s.loadReg
    requires forall y :: y in s.loadReg ==> s.loadReg[y] != k
    ensures Inv(r, n)
  {
    var r := Bind(s, v, k);
    assert r.regValues == s.regValues + [v];
    assert Distinct(r.regValues) by {
      forall i, j | 0 <= i < j < |r.regValues|
        ensures r.regValues[i] != r.regValues[j]
      {
        if j == |s.regValues| {
          assert r.regValues[i] in s.regValues;
        }
      }
    }
    r
  }

  /** Occupy the free register `k` and bind `v` to it when there is a value. */
  function OccupyFree(s: RegState, v: Option<Value>, k: int, n: nat): (r: RegState)
    requires Inv(s, n) && 0 <= k < n && !s.regBitmap[k] && (v.None? || v.value !in s.loadReg)
    ensures Inv(r, n)
  {
    var s1 := Occupy(s, k);
    OccupyKeepsInv(s, k, n);
    if v.Some? then BindUnowned(s1, v.value, k, n) else s1
  }

  /** Take the register of the front of the queue for `v`: the front is unbound and dequeued. */
  function EvictOldest(s: RegState, v: Option<Value>, n: nat): (r: (RegState, int))
    requires Inv(s, n) && |s.regValues| > 0 && (v.None? || v.value !in s.loadReg)
    ensures Inv(r.0, n) && 0 <= r.1 < n
  {
    var reg := s.loadReg[s.regValues[0]];
    var s1 := Dequeue(s, 0, n);
    assert s1.regValues == s.regValues[1..];
    if v.Some? then (BindUnowned(s1, v.value, reg, n), reg) else (s1, reg)
  }

  /** On a value that already holds a register, `Allocate` returns it and changes nothing. */
  lemma AllocateIdempotent(s: RegState, x: Value, no: int, n: nat)
    requires Inv(s, n) && (no == -1 || 0 <= no < n) && x in s.loadReg
    ensures AllocateSpec(s, Some(x), no, n) == (s, s.loadReg[x])
  {
  }

  /**
   * With a free register, `Allocate` takes the requested one if it is free and
   * otherwise the lowest free one, marks it occupied and used, binds the value
   * at the back of the queue, and leaves one free register fewer.
   */
  lemma AllocateTakesFree(s: RegState, v: Option<Value>, no: int, n: nat)
    requires Inv(s, n) && (no == -1 || 0 <= no < n)
    requires v.None? || v.value !in s.loadReg
    requires exists k :: 0 <= k < n && !s.regBitmap[k]
    ensures var (t, r) := AllocateSpec(s, v, no, n);
      !s.regBitmap[r]
      && (no != -1 && !s.regBitmap[no] ==> r == no)
      && (no == -1 || s.regBitmap[no] ==> forall k :: 0 <= k < r ==> s.regBitmap[k])
      && t.regBitmap == s.regBitmap[r := true] && t.usedBitmap == s.usedBitmap[r := true]
      && t.regValues == s.regValues + (if v.Some? then [v.value] else [])
      && (v.Some? ==> t.loadReg == s.loadReg[v.value := r])
      && (v.None? ==> t.loadReg == s.loadReg)
      && FreeCount(t.regBitmap) == FreeCount(s.regBitmap) - 1
  {
    var (t, r) := AllocateSpec(s, v, no, n);
    FreeCountOccupy(s.regBitmap, r);
  }

  /**
   * With every register occupied, `Allocate` evicts the front of the queue:
   * its register is reused, it is unbound and dequeued, and the bitmaps stay as
   * they were.
   */
  lemma AllocateEvictsOldest(s: RegState, v: Option<Value>, no: int, n: nat)
    requires Inv(s, n) && (no == -1 || 0 <= no < n) && |s.regValues| > 0
    requires v.None? || v.value !in s.loadReg
    requires forall k :: 0 <= k < n ==> s.regBitmap[k]
    ensures var (t, r) := AllocateSpec(s, v, no, n); var oldest := s.regValues[0];
      r == s.loadReg[oldest]
      && t.regBitmap == s.regBitmap && t.usedBitmap == s.usedBitmap
      && t.regValues == s.regValues[1..] + (if v.Some? then [v.value] else [])
      && oldest !in t.loadReg
  {
  }

  /** The queue after `Allocate` keeps allocation order: old entries keep their order, a new one goes last. */
  lemma AllocateKeepsOrder(s: RegState, v: Option<Value>, no: int, n: nat)
    requires Inv(s, n) && AllocatePre(s, v, no, n)
    ensures var t := AllocateSpec(s, v, no, n).0;
      exists k :: 0 <= k <= 1 && k <= |s.regValues|
        && t.regValues == s.regValues[k..] + (if v.Some? && v.value !in s.loadReg then [v.value] else [])
  {
    var t := AllocateSpec(s, v, no, n).0;
    var added := if v.Some? && v.value !in s.loadReg then [v.value] else [];
    if v.Some? && v.value in s.loadReg {
      assert t.regValues == s.regValues[0..] + added;
    } else if exists k :: 0 <= k < n && !s.regBitmap[k] {
      AllocateTakesFree(s, v, no, n);
      assert t.regValues == s.regValues[0..] + added;
    } else {
      AllocateEvictsOldest(s, v, no, n);
      assert t.regValues == s.regValues[1..] + added;
    }
  }

  /** The forced `Allocate(no)`: evict the owner of `no` if it is occupied, then occupy it. */
  function ForceAllocateSpec(s: RegState, no: int, n: nat): (r: RegState)
    requires Inv(s, n) && 0 <= no < n
    ensures Inv(r, n)
  {
    var s1 := if s.regBitmap[no] then FreeRegSpec(s, no, n) else s;
    OccupyKeepsInv(s1, no, n);
    Occupy(s1, no)
  }

  /** After a forced claim the register is occupied and used, and no value holds it any more. */
  lemma ForceAllocateEffect(s: RegState, no: int, n: nat)
    requires Inv(s, n) && 0 <= no < n
    ensures var r := ForceAllocateSpec(s, no, n);
      r.regBitmap[no] && r.usedBitmap[no]
      && (forall y :: y in r.loadReg ==> r.loadReg[y] != no)
      && (forall k :: 0 <= k < n && k != no ==> r.regBitmap[k] == s.regBitmap[k])
  {
    if s.regBitmap[no] {
      FreeRegEffect(s, no, n);
    }
  }

  /** Freeing never clears a bit of `usedBitmap`. */
  lemma FreeKeepsUsed(s: RegState, v: Option<Value>, no: int, n: nat)
    requires Inv(s, n) && (no == -1 || 0 <= no < n)
    ensures FreeValueSpec(s, v, n).usedBitmap == s.usedBitmap
    ensures FreeRegSpec(s, no, n).usedBitmap == s.usedBitmap
  {
  }

  /** Allocation only ever adds bits to `usedBitmap`. */
  lemma AllocateGrowsUsed(s: RegState, v: Option<Value>, no: int, n: nat)
    requires Inv(s, n) && AllocatePre(s, v, no, n)
    ensures UsedGrows(s, AllocateSpec(s, v, no, n).0)
  {
  }

  lemma ForceAllocateGrowsUsed(s: RegState, no: int, n: nat)
    requires Inv(s, n) && 0 <= no < n
    ensures UsedGrows(s, ForceAllocateSpec(s, no, n))
  {
    if s.regBitmap[no] {
      FreeKeepsUsed(s, None, no, n);
    }
  }

  // ---------------------------------------------------------------------------
  // Lifetimes (`analyzeVariableLifetime`, `willBeUsedLater`)
  // ---------------------------------------------------------------------------

  type Lifetimes = map<Value, (int, int)>

  /** Record a use of `op` at instruction `i`. */
  function UseAt(m: Lifetimes, op: Value, i: int): Lifetimes {
    if op in m then m[op := (m[op].0, i)] else m[op := (0, i)]
  }

  /** Uses of the operands `ops` of instruction `i`, left to right. */
  function UsesAt(m: Lifetimes, ops: seq<Value>, i: int): Lifetimes {
    if |ops| == 0 then m else UseAt(UsesAt(m, ops[..|ops| - 1], i), ops[|ops| - 1], i)
  }

  /** Definition by instruction `i`, recorded only if the result has not been seen. */
  function DefAt(m: Lifetimes, inst: IRInst, i: int): Lifetimes {
    if inst.result.Some? && inst.result.value !in m then m[inst.result.value := (i, i)] else m
  }

  /** The lifetime table built from `insts`, instruction by instruction. */
  function LifetimeTable(insts: seq<IRInst>): Lifetimes
    decreases |insts|
  {
    if |insts| == 0 then map[]
    else
      var i := |insts| - 1;
      UsesAt(DefAt(LifetimeTable(insts[..i]), insts[i], i), insts[i].operands, i)
  }

  /** Index of the last instruction that uses `v` as an operand, or -1. */
  function LastUse(insts: seq<IRInst>, v: Value): (k: int)
    ensures -1 <= k < |insts|
    ensures k != -1 ==> v in insts[k].operands
    ensures forall j :: k < j < |insts| ==> v !in insts[j].operands
  {
    if |insts| == 0 then -1
    else if v in insts[|insts| - 1].operands then |insts| - 1
    else LastUse(insts[..|insts| - 1], v)
  }

  predicate Touches(inst: IRInst, v: Value) {
    (inst.result.Some? && inst.result.value == v) || v in inst.operands
  }

  /** Index of the first instruction that defines or uses `v`, or -1. */
  function FirstTouch(insts: seq<IRInst>, v: Value): (k: int)
    ensures -1 <= k < |insts|
    ensures k != -1 ==> Touches(insts[k], v)
    ensures forall j :: 0 <= j < |insts| && (k == -1 || j < k) ==> !Touches(insts[j], v)
  {
    if |insts| == 0 then -1
    else
      var k := FirstTouch(insts[..|insts| - 1], v);
      if k != -1 then k else if Touches(insts[|insts| - 1], v) then |insts| - 1 else -1
  }

  lemma {:induction false} UsesAtEffect(m: Lifetimes, ops: seq<Value>, i: int, v: Value)
    ensures v in UsesAt(m, ops, i) <==> v in m || v in ops
    ensures v in ops ==> UsesAt(m, ops, i)[v] == (if v in m then m[v].0 else 0, i)
    ensures v !in ops && v in m ==> UsesAt(m, ops, i)[v] == m[v]
    decreases |ops|
  {
    if |ops| > 0 {
      var p := ops[..|ops| - 1];
      UsesAtEffect(m, p, i, v);
      assert v in ops <==> v in p || v == ops[|ops| - 1];
    }
  }

  /**
   * The lifetime of a value: it is recorded iff some instruction touches it; the
   * start is the index of its first touch when that touch defines it and 0 when
   * it is first met as an operand; the end is its last use as an operand, or its
   * definition index when it is never used.
   */
  lemma {:induction false} LifetimeTableSpec(insts: seq<IRInst>, v: Value)
    ensures var m := LifetimeTable(insts); var f := FirstTouch(insts, v); var l := LastUse(insts, v);
      (v in m <==> f != -1)
      && (f != -1 ==> m[v].0 == (if insts[f].result == Some(v) then f else 0))
      && (f != -1 ==> m[v].1 == (if l != -1 then l else f))
    decreases |insts|
  {
    if |insts| > 0 {
      var i := |insts| - 1;
      var p := insts[..i];
      LifetimeTableSpec(p, v);
      var m0 := LifetimeTable(p);
      var m1 := DefAt(m0, insts[i], i);
      UsesAtEffect(m1, insts[i].operands, i, v);
      assert FirstTouch(insts, v) == (if FirstTouch(p, v) != -1 then FirstTouch(p, v)
        else if Touches(insts[i], v) then i else -1);
      assert LastUse(insts, v) == (if v in insts[i].operands then i else LastUse(p, v));
    }
  }

  /** `willBeUsedLater`: the value's recorded last use lies after `idx`; false for unknown values. */
  function UsedLater(m: Lifetimes, v: Value, idx: int): bool {
    v in m && idx < m[v].1
  }

  /** At its last use a value is dead; one instruction before, it is live. */
  lemma UsedLaterBoundary(m: Lifetimes, v: Value)
    requires v in m
    ensures !UsedLater(m, v, m[v].1)
    ensures UsedLater(m, v, m[v].1 - 1)
  {
  }

  // ---------------------------------------------------------------------------
  // Release of dead temporaries, priority eviction, lifetime-based freeing
  // ---------------------------------------------------------------------------

  /** Free the values of `vs` one after another. */
  function FreeAll(s: RegState, vs: seq<Value>, n: nat): (r: RegState)
    requires Inv(s, n)
    ensures Inv(r, n)
  {
    if |vs| == 0 then s else FreeValueSpec(FreeAll(s, vs[..|vs| - 1], n), Some(vs[|vs| - 1]), n)
  }

  /** Whether bound or not, a freed value holds no register afterwards and nothing else changes. */
  lemma FreeValueUnbinds(s: RegState, x: Value, n: nat)
    requires Inv(s, n)
    ensures FreeValueSpec(s, Some(x), n).loadReg == s.loadReg - {x}
    ensures FreeValueSpec(s, Some(x), n).usedBitmap == s.usedBitmap
  {
    if x !in s.loadReg {
      assert s.loadReg - {x} == s.loadReg;
    }
  }

  lemma MapMinusUnion(m: map<Value, int>, A: set<Value>, B: set<Value>)
    ensures (m - A) - B == m - (A + B)
  {
  }

  /** Freeing a list of values unbinds exactly those values and leaves `usedBitmap` alone. */
  lemma {:induction false} FreeAllBindings(s: RegState, vs: seq<Value>, n: nat)
    requires Inv(s, n)
    ensures var r := FreeAll(s, vs, n);
      r.loadReg == s.loadReg - Members(vs) && r.usedBitmap == s.usedBitmap
    decreases |vs|
  {
    if |vs| == 0 {
      assert s.loadReg - {} == s.loadReg;
    } else {
      var p := vs[..|vs| - 1];
      var x := vs[|vs| - 1];
      FreeAllBindings(s, p, n);
      var t := FreeAll(s, p, n);
      FreeValueUnbinds(t, x, n);
      MapMinusUnion(s.loadReg, Members(p), {x});
    }
  }

  /** Freeing a list of values removes exactly those values from the queue, the rest kept in order. */
  lemma {:induction false} FreeAllQueue(s: RegState, vs: seq<Value>, n: nat)
    requires Inv(s, n)
    ensures FreeAll(s, vs, n).regValues == Except(s.regValues, Members(vs))
    decreases |vs|
  {
    if |vs| == 0 {
      ExceptNothing(s.regValues, {});
    } else {
      var p := vs[..|vs| - 1];
      var x := vs[|vs| - 1];
      FreeAllQueue(s, p, n);
      var t := FreeAll(s, p, n);
      if x in t.loadReg {
        FreeValueEffect(t, x, n);
      } else {
        ExceptNothing(t.regValues, {x});
      }
      ExceptUnion(s.regValues, Members(p), {x});
    }
  }

  /** A queued value is released when it is a temporary that is not used after `idx`. */
  predicate Releasable(m: Lifetimes, v: Value, idx: int) {
    IsTempName(v.name) && !UsedLater(m, v, idx)
  }

  /** The `toRelease` list: queued values that are releasable, in queue order. */
  function ToRelease(q: seq<Value>, m: Lifetimes, idx: int): (r: seq<Value>)
    ensures |r| <= |q|
  {
    if |q| == 0 then []
    else ToRelease(q[..|q| - 1], m, idx) + (if Releasable(m, q[|q| - 1], idx) then [q[|q| - 1]] else [])
  }

  lemma {:induction false} ToReleaseMembers(q: seq<Value>, m: Lifetimes, idx: int)
    ensures forall x :: x in ToRelease(q, m, idx) <==> x in q && Releasable(m, x, idx)
    decreases |q|
  {
    if |q| > 0 {
      var p := q[..|q| - 1];
      ToReleaseMembers(p, m, idx);
      assert q == p + [q[|q| - 1]];
    }
  }

  lemma {:induction false} ToReleaseLength(q: seq<Value>, m: Lifetimes, idx: int, S: set<Value>)
    requires forall x :: x in q ==> (x in S <==> Releasable(m, x, idx))
    ensures |ToRelease(q, m, idx)| + |Except(q, S)| == |q|
    decreases |q|
  {
    if |q| > 0 {
      ToReleaseLength(q[..|q| - 1], m, idx, S);
    }
  }

  /** `releaseUnusedTempVars(idx)`: the new state and the number of values freed. */
  function ReleaseSpec(s: RegState, m: Lifetimes, idx: int, n: nat): (r: (RegState, int))
    requires Inv(s, n)
    ensures Inv(r.0, n)
  {
    var vs := ToRelease(s.regValues, m, idx);
    (FreeAll(s, vs, n), |vs|)
  }

  /**
   * Release frees exactly the queued temporaries that are not used later: they
   * lose their registers, every other value keeps its binding and its place in
   * the queue, and the count returned is the number of values removed.
   */
  lemma ReleaseFreesExactly(s: RegState, m: Lifetimes, idx: int, n: nat)
    requires Inv(s, n)
    ensures var (t, c) := ReleaseSpec(s, m, idx, n);
      (forall y :: y in s.regValues ==> (y in t.loadReg <==> !Releasable(m, y, idx)))
      && (forall y :: y in t.loadReg ==> y in s.loadReg && t.loadReg[y] == s.loadReg[y])
      && t.regValues == Except(s.regValues, set y | y in s.regValues && Releasable(m, y, idx))
      && c == |s.regValues| - |t.regValues|
  {
    var vs := ToRelease(s.regValues, m, idx);
    var S := Members(vs);
    MembersSpec(vs);
    ToReleaseMembers(s.regValues, m, idx);
    assert S == set y | y in s.regValues && Releasable(m, y, idx);
    FreeAllBindings(s, vs, n);
    FreeAllQueue(s, vs, n);
    ToReleaseLength(s.regValues, m, idx, S);
  }

  /** Release binds nothing new. */
  lemma ReleaseKeepsUnbound(s: RegState, m: Lifetimes, idx: int, x: Value, n: nat)
    requires Inv(s, n) && x !in s.loadReg
    ensures x !in ReleaseSpec(s, m, idx, n).0.loadReg
  {
    FreeAllBindings(s, ToRelease(s.regValues, m, idx), n);
  }

  /** The eviction rank of a queued value: 10 for a non-temporary, else its recorded priority or 5. */
  function Rank(s: RegState, v: Value): int {
    if !IsTempName(v.name) then 10
    else if v in s.tempVarPriority then s.tempVarPriority[v] else 5
  }

  /**
   * The scan of `evictForTemp` over the first `i` queued values: the queue
   * index of the chosen victim (-1 for none) and the rank it set (starting
   * from 0); a value replaces the current victim only when its rank is above
   * both `priority` and the current rank.
   */
  function VictimScan(s: RegState, priority: int, i: int): (r: (int, int))
    requires 0 <= i <= |s.regValues|
    ensures -1 <= r.0 < i
    ensures r.0 != -1 ==> r.1 == Rank(s, s.regValues[r.0])
    ensures r.0 == -1 ==> r.1 == 0
  {
    if i == 0 then (-1, 0)
    else
      var (b, m) := VictimScan(s, priority, i - 1);
      var p := Rank(s, s.regValues[i - 1]);
      if p > priority && p > m then (i - 1, p) else (b, m)
  }

  /**
   * The victim is the first queued value of highest rank among those ranked
   * above both `priority` and 0; there is none iff no value is ranked that high.
   */
  lemma {:induction false} VictimScanSpec(s: RegState, priority: int, i: int)
    requires 0 <= i <= |s.regValues|
    ensures var (b, m) := VictimScan(s, priority, i);
      (b == -1 <==> forall j :: 0 <= j < i ==> Rank(s, s.regValues[j]) <= Max(priority, 0))
      && (b != -1 ==>
            m > Max(priority, 0)
            && (forall j :: 0 <= j < i ==> Rank(s, s.regValues[j]) <= m)
            && (forall j :: 0 <= j < b ==> Rank(s, s.regValues[j]) < m))
  {
    if i > 0 {
      VictimScanSpec(s, priority, i - 1);
    }
  }

  /** `evictForTemp(v, priority)`: free the victim and return its register, or return -1. */
  function EvictSpec(s: RegState, priority: int, n: nat): (r: (RegState, int))
    requires Inv(s, n)
    ensures Inv(r.0, n)
    ensures r.1 == -1 ==> r.0 == s
    ensures r.1 != -1 ==> 0 <= r.1 < n && !r.0.regBitmap[r.1]
  {
    var (b, _) := VictimScan(s, priority, |s.regValues|);
    if b != -1 then
      var x := s.regValues[b];
      FreeValueEffect(s, x, n);
      (FreeValueSpec(s, Some(x), n), s.loadReg[x])
    else (s, -1)
  }

  /** Priorities in descending order. */
  ghost predicate SortedByRank(s: RegState, q: seq<Value>) {
    forall i, j :: 0 <= i < j < |q| ==> Rank(s, q[i]) >= Rank(s, q[j])
  }

  /** Insert `x` into a rank-descending list after every element ranked at least as high. */
  function InsertByRank(s: RegState, x: Value, q: seq<Value>): (r: seq<Value>)
    ensures multiset(r) == multiset(q) + multiset{x}
  {
    if |q| == 0 then [x]
    else if Rank(s, q[0]) >= Rank(s, x) then
      assert q == [q[0]] + q[1..];
      [q[0]] + InsertByRank(s, x, q[1..])
    else [x] + q
  }

  /** Putting an element ranked at least as high as the head in front keeps a list rank-descending. */
  lemma ConsSorted(s: RegState, a: Value, t: seq<Value>)
    requires SortedByRank(s, t) && (|t| > 0 ==> Rank(s, a) >= Rank(s, t[0]))
    ensures SortedByRank(s, [a] + t)
  {
    var r := [a] + t;
    forall i, j | 0 <= i < j < |r|
      ensures Rank(s, r[i]) >= Rank(s, r[j])
    {
      assert r[j] == t[j - 1];
      if i > 0 {
        assert r[i] == t[i - 1];
      } else if j > 1 {
        assert Rank(s, t[0]) >= Rank(s, t[j - 1]);
      }
    }
  }

  /** The tail of a rank-descending list is rank-descending. */
  lemma TailSorted(s: RegState, q: seq<Value>)
    requires SortedByRank(s, q) && |q| > 0
    ensures SortedByRank(s, q[1..])
  {
    var q' := q[1..];
    forall i, j | 0 <= i < j < |q'| ensures Rank(s, q'[i]) >= Rank(s, q'[j]) {
      assert q'[i] == q[i + 1] && q'[j] == q[j + 1];
    }
  }

  lemma {:induction false} InsertByRankSorted(s: RegState, x: Value, q: seq<Value>)
    requires SortedByRank(s, q)
    ensures var r := InsertByRank(s, x, q);
      SortedByRank(s, r) && |r| == |q| + 1
      && (Rank(s, r[0]) == Rank(s, x) || Rank(s, r[0]) == Rank(s, q[0]))
    decreases |q|
  {
    if |q| > 0 && Rank(s, q[0]) >= Rank(s, x) {
      var q' := q[1..];
      TailSorted(s, q);
      InsertByRankSorted(s, x, q');
      var t := InsertByRank(s, x, q');
      assert Rank(s, t[0]) <= Rank(s, q[0]) by {
        if |q'| > 0 {
          assert q'[0] == q[1];
        }
      }
      ConsSorted(s, q[0], t);
    } else if |q| > 0 {
      ConsSorted(s, x, q);
    }
  }

  /** `std::sort` of the candidates by descending rank (one of the orders it may produce). */
  function SortByRank(s: RegState, q: seq<Value>): (r: seq<Value>)
    ensures multiset(r) == multiset(q)
  {
    if |q| == 0 then [] else
      assert q == q[..|q| - 1] + [q[|q| - 1]];
      InsertByRank(s, q[|q| - 1], SortByRank(s, q[..|q| - 1]))
  }

  /** The sort yields a rank-descending list. */
  lemma {:induction false} SortByRankSorted(s: RegState, q: seq<Value>)
    ensures SortedByRank(s, SortByRank(s, q))
    decreases |q|
  {
    if |q| > 0 {
      SortByRankSorted(s, q[..|q| - 1]);
      InsertByRankSorted(s, q[|q| - 1], SortByRank(s, q[..|q| - 1]));
    }
  }

  /** The candidates of `smartFreeByLifetime`: queued temporaries whose rank is at most `urgency`. */
  function Candidates(s: RegState, q: seq<Value>, urgency: int): (r: seq<Value>)
    ensures |r| <= |q|
  {
    if |q| == 0 then []
    else
      var x := q[|q| - 1];
      Candidates(s, q[..|q| - 1], urgency) + (if IsTempName(x.name) && urgency >= Rank(s, x) then [x] else [])
  }

  lemma {:induction false} CandidatesMembers(s: RegState, q: seq<Value>, urgency: int)
    ensures forall x :: x in Candidates(s, q, urgency) <==> x in q && IsTempName(x.name) && Rank(s, x) <= urgency
    decreases |q|
  {
    if |q| > 0 {
      var p := q[..|q| - 1];
      CandidatesMembers(s, p, urgency);
      assert q == p + [q[|q| - 1]];
    }
  }

  /** How many of `c` candidates are freed: the loop frees one, then stops once `urgency` is reached. */
  function FreedCount(c: nat, urgency: int): (k: nat)
    ensures k <= c && (c > 0 ==> k > 0)
  {
    if c == 0 then 0 else if urgency < 1 then 1 else if urgency < c then urgency else c
  }

  /** `smartFreeByLifetime(urgency)`: the new state and the number of values freed. */
  function SmartFreeSpec(s: RegState, urgency: int, n: nat): (r: (RegState, int))
    requires Inv(s, n)
    ensures Inv(r.0, n)
  {
    var sorted := SortByRank(s, Candidates(s, s.regValues, urgency));
    var k := FreedCount(|sorted|, urgency);
    (FreeAll(s, sorted[..k], n), k)
  }

  /** In a rank-descending list, every element of a prefix ranks at least as high as any element past it. */
  lemma PrefixRanksHighest(s: RegState, sorted: seq<Value>, k: int, y: Value, z: Value)
    requires SortedByRank(s, sorted) && 0 <= k <= |sorted|
    requires y in sorted[..k] && z in sorted && z !in sorted[..k]
    ensures Rank(s, y) >= Rank(s, z)
  {
    var i :| 0 <= i < k && sorted[..k][i] == y;
    var j :| 0 <= j < |sorted| && sorted[j] == z;
    assert forall j' :: 0 <= j' < k ==> sorted[..k][j'] == sorted[j'];
  }

  /**
   * Lifetime-based freeing releases only candidates, as many as `FreedCount`
   * says, and never keeps a candidate ranked above one it freed.
   */
  lemma SmartFreeChoosesHighestRanks(s: RegState, urgency: int, n: nat)
    requires Inv(s, n)
    ensures var (t, k) := SmartFreeSpec(s, urgency, n);
      var cands := Candidates(s, s.regValues, urgency);
      k == FreedCount(|cands|, urgency)
      && (forall y :: y in s.loadReg && y !in t.loadReg ==> y in cands)
      && (forall y, z :: y in cands && z in cands && y in s.loadReg && y !in t.loadReg && z in t.loadReg
            ==> Rank(s, y) >= Rank(s, z))
  {
    var cands := Candidates(s, s.regValues, urgency);
    var sorted := SortByRank(s, cands);
    SortByRankSorted(s, cands);
    assert |sorted| == |multiset(sorted)| == |multiset(cands)| == |cands|;
    var k := FreedCount(|sorted|, urgency);
    var freed := sorted[..k];
    FreeAllBindings(s, freed, n);
    MembersSpec(freed);
    var t := FreeAll(s, freed, n);
    assert t == SmartFreeSpec(s, urgency, n).0;
    forall y | y in s.loadReg && y !in t.loadReg
      ensures y in cands
    {
      assert y in freed;
      assert y in multiset(sorted);
    }
    forall y, z | y in cands && z in cands && y in s.loadReg && y !in t.loadReg && z in t.loadReg
      ensures Rank(s, y) >= Rank(s, z)
    {
      assert y in freed && z !in freed;
      assert z in multiset(cands);
      assert z in sorted;
      PrefixRanksHighest(s, sorted, k, y, z);
    }
  }

  // ---------------------------------------------------------------------------
  // dynamicAllocateTemp
  // ---------------------------------------------------------------------------

  /** Bind `v` to free register `k` and record it as the tiers do. */
  function BindTemp(s: RegState, v: Value, k: int, prio: int, record: bool, recordName: bool, n: nat): (r: RegState)
    requires Inv(s, n) && 0 <= k < n && !s.regBitmap[k] && v !in s.loadReg
    ensures Inv(r, n)
  {
    var s1 := OccupyFree(s, Some(v), k, n);
    s1.(dynamicTempAllocations := if recordName then s1.dynamicTempAllocations[v.name := k] else s1.dynamicTempAllocations,
        tempVarPriority := if record then s1.tempVarPriority[v := prio] else s1.tempVarPriority)
  }

  /** `dynamicAllocateTemp(v, idx)`: the new state and the register returned (-1 when none). */
  function DynamicAllocateSpec(s: RegState, m: Lifetimes, v: Option<Value>, idx: int, n: nat): (r: (RegState, int))
    requires Inv(s, n) && n >= 8
    ensures Inv(r.0, n) && -1 <= r.1 < n
  {
    if v.None? then (s, -1)
    else if v.value in s.loadReg then (s, s.loadReg[v.value])
    else
      var x := v.value;
      var tier1 := IsTempVariable(v) && (|x.name| == 0 || x.name[0] == 't');
      var k1 := if tier1 then FirstFree(s.regBitmap, 0, 4) else -1;
      var k2 := if tier1 then FirstFree(s.regBitmap, 4, 8) else -1;
      if k1 != -1 then
        (BindTemp(s, x, k1, 1, true, |x.name| > 0, n), k1)
      else if k2 != -1 then
        (BindTemp(s, x, k2, 2, true, |x.name| > 0, n), k2)
      else if idx != -1 then ReleaseTier(s, m, x, idx, n)
      else EvictSpec(s, 3, n)
  }

  /** The third tier: release dead temporaries, take the lowest free of r0-r7 with priority 3, else evict. */
  function ReleaseTier(s: RegState, m: Lifetimes, x: Value, idx: int, n: nat): (r: (RegState, int))
    requires Inv(s, n) && n >= 8 && x !in s.loadReg
    ensures Inv(r.0, n) && -1 <= r.1 < n
  {
    var s2 := ReleaseSpec(s, m, idx, n).0;
    var k3 := FirstFree(s2.regBitmap, 0, 8);
    if k3 != -1 then
      var rec := IsTempName(x.name) && |x.name| > 0;
      ReleaseKeepsUnbound(s, m, idx, x, n);
      (BindTemp(s2, x, k3, 3, rec, rec, n), k3)
    else EvictSpec(s2, 3, n)
  }

  /**
   * The first two tiers serve only temporaries whose name is empty or starts
   * with 't': the lowest free register of r0-r3 with priority 1, else of r4-r7
   * with priority 2.
   */
  lemma DynamicAllocateTierOne(s: RegState, m: Lifetimes, x: Value, idx: int, n: nat)
    requires Inv(s, n) && n >= 8 && x !in s.loadReg
    requires |x.name| == 0 || x.name[0] == 't'
    requires exists k :: 0 <= k < 4 && !s.regBitmap[k]
    ensures var (t, r) := DynamicAllocateSpec(s, m, Some(x), idx, n);
      r == FirstFree(s.regBitmap, 0, 4) && x in t.loadReg && t.loadReg[x] == r
      && x in t.tempVarPriority && t.tempVarPriority[x] == 1
  {
  }

  lemma DynamicAllocateTierTwo(s: RegState, m: Lifetimes, x: Value, idx: int, n: nat)
    requires Inv(s, n) && n >= 8 && x !in s.loadReg
    requires |x.name| == 0 || x.name[0] == 't'
    requires forall k :: 0 <= k < 4 ==> s.regBitmap[k]
    requires exists k :: 4 <= k < 8 && !s.regBitmap[k]
    ensures var (t, r) := DynamicAllocateSpec(s, m, Some(x), idx, n);
      r == FirstFree(s.regBitmap, 4, 8) && x in t.loadReg && t.loadReg[x] == r
      && x in t.tempVarPriority && t.tempVarPriority[x] == 2
  {
  }

  /** With the default index -1 the release tier is skipped and eviction decides. */
  lemma DynamicAllocateDefaultIndex(s: RegState, m: Lifetimes, x: Value, n: nat)
    requires Inv(s, n) && n >= 8 && x !in s.loadReg
    requires !(|x.name| == 0 || x.name[0] == 't') || forall k :: 0 <= k < 8 ==> s.regBitmap[k]
    ensures DynamicAllocateSpec(s, m, Some(x), -1, n) == EvictSpec(s, 3, n)
  {
  }

  /** Eviction frees a register but does not bind the value that asked for it. */
  lemma EvictDoesNotBind(s: RegState, x: Value, n: nat)
    requires Inv(s, n) && x !in s.loadReg
    ensures x !in EvictSpec(s, 3, n).0.loadReg
  {
    var (b, _) := VictimScan(s, 3, |s.regValues|);
    if b != -1 {
      FreeValueEffect(s, s.regValues[b], n);
    }
  }

  // ---------------------------------------------------------------------------
  // The allocator object
  // ---------------------------------------------------------------------------

  class Allocator {
    /** `PlatformArm32::maxUsableRegNum`; the r0-r7 tiers need at least 8. */
    const n: nat
    var regBitmap: seq<bool>
    var usedBitmap: seq<bool>
    var regValues: seq<Value>
    var loadReg: map<Value, int>
    var dynamicTempAllocations: map<string, int>
    var variableLifetime: Lifetimes
    var currentInstructionIndex: int
    var tempVarPriority: map<Value, int>
    var globalUsageCounter: int

    function State(): RegState
      reads this
    {
      RegState(regBitmap, usedBitmap, regValues, loadReg, dynamicTempAllocations, tempVarPriority)
    }

    ghost predicate Valid()
      reads this
    {
      n >= 8 && Inv(State(), n)
    }

    constructor(numRegs: nat)
      requires numRegs >= 8
      ensures n == numRegs && Valid() && State() == EmptyState(numRegs)
      ensures currentInstructionIndex == 0 && globalUsageCounter == 0 && variableLifetime == map[]
    {
      n := numRegs;
      regBitmap := seq(numRegs, _ => false);
      usedBitmap := seq(numRegs, _ => false);
      regValues := [];
      loadReg := map[];
      dynamicTempAllocations := map[];
      variableLifetime := map[];
      currentInstructionIndex := 0;
      tempVarPriority := map[];
      globalUsageCounter := 0;
    }

    /** Load register of `v`, -1 when it holds none (`getLoadRegId`). */
    function LoadRegId(v: Value): int
      reads this
    {
      LoadRegOf(State(), v)
    }

    /** `bitmapSet(no)`. */
    method BitmapSet(no: int)
      requires 0 <= no < |regBitmap| && |usedBitmap| == |regBitmap|
      modifies this`regBitmap, this`usedBitmap, this`regValues, this`loadReg, this`dynamicTempAllocations, this`tempVarPriority
      ensures State() == Occupy(old(State()), no)
    {
      regBitmap := regBitmap[no := true];
      usedBitmap := usedBitmap[no := true];
    }

    /** The scan `for (k = lo; k < hi; ++k) if (!regBitmap.test(k)) ...`. */
    method FindFree(lo: int, hi: int) returns (k: int)
      requires 0 <= lo <= hi <= |regBitmap|
      ensures k == FirstFree(regBitmap, lo, hi)
    {
      var i := lo;
      while i < hi
        invariant lo <= i <= hi
        invariant forall j :: lo <= j < i ==> regBitmap[j]
      {
        if !regBitmap[i] {
          return i;
        }
        i := i + 1;
      }
      return -1;
    }

    /** `Allocate(var, no)`; the defaults `(nullptr, -1)` are `Allocate(None, -1)`. */
    method Allocate(v: Option<Value>, no: int) returns (regno: int)
      requires Valid() && AllocatePre(State(), v, no, n)
      modifies this`regBitmap, this`usedBitmap, this`regValues, this`loadReg, this`dynamicTempAllocations, this`tempVarPriority
      ensures (State(), regno) == AllocateSpec(old(State()), v, no, n)
      ensures Valid()
    {
      if v.Some? && v.value in loadReg {
        return loadReg[v.value];
      }
      regno := -1;
      if no != -1 && !regBitmap[no] {
        regno := no;
      } else {
        regno := FindFree(0, n);
      }
      if regno != -1 {
        BitmapSet(regno);
      } else {
        var oldest := regValues[0];
        assert regValues[..0] + regValues[1..] == regValues[1..];
        regno := loadReg[oldest];
        loadReg := loadReg - {oldest};
        regValues := regValues[1..];
      }
      if v.Some? {
        loadReg := loadReg[v.value := regno];
        regValues := regValues + [v.value];
      }
    }

    /** The forced claim `Allocate(int32_t no)`. */
    method ForceAllocate(no: int)
      requires Valid() && 0 <= no < n
      modifies this`regBitmap, this`usedBitmap, this`regValues, this`loadReg, this`dynamicTempAllocations, this`tempVarPriority
      ensures State() == ForceAllocateSpec(old(State()), no, n)
      ensures Valid()
    {
      if regBitmap[no] {
        FreeReg(no);
      }
      BitmapSet(no);
    }

    /** Drop queue entry `i` and the records of its value: the erasing shared by both `free`s. */
    method Unbind(i: int)
      requires Valid() && 0 <= i < |regValues|
      modifies this`regValues, this`loadReg, this`dynamicTempAllocations, this`tempVarPriority
      ensures State() == UnbindAt(old(State()), i, n)
      ensures Valid()
    {
      var x := regValues[i];
      regValues := regValues[..i] + regValues[i + 1..];
      loadReg := loadReg - {x};
      dynamicTempAllocations := dynamicTempAllocations - {x.name};
      tempVarPriority := tempVarPriority - {x};
    }

    /** `free(Value* var)`. */
    method FreeValue(v: Option<Value>)
      requires Valid()
      modifies this`regBitmap, this`usedBitmap, this`regValues, this`loadReg, this`dynamicTempAllocations, this`tempVarPriority
      ensures State() == FreeValueSpec(old(State()), v, n)
      ensures Valid()
    {
      if v.Some? && v.value in loadReg {
        var x := v.value;
        var k := loadReg[x];
        Unbind(IndexOf(regValues, x));
        regBitmap := regBitmap[k := false];
      }
    }

    /** `free(int32_t no)`. */
    method FreeReg(no: int)
      requires Valid() && (no == -1 || 0 <= no < n)
      modifies this`regBitmap, this`usedBitmap, this`regValues, this`loadReg, this`dynamicTempAllocations, this`tempVarPriority
      ensures State() == FreeRegSpec(old(State()), no, n)
      ensures Valid()
    {
      if no == -1 {
        return;
      }
      var i := OwnerIndex(regValues, loadReg, no);
      if i != -1 {
        Unbind(i);
      }
      regBitmap := regBitmap[no := false];
    }

    /** `setCurrentInstructionIndex(index)`. */
    method SetCurrentInstructionIndex(index: int)
      modifies this`currentInstructionIndex
      ensures currentInstructionIndex == index
    {
      currentInstructionIndex := index;
    }

    /** `getAvailableRegCount()`. */
    method GetAvailableRegCount() returns (count: int)
      requires Valid()
      ensures count == FreeCount(regBitmap)
      ensures count == 0 <==> forall k :: 0 <= k < n ==> regBitmap[k]
    {
      count := 0;
      var k := 0;
      while k < n
        invariant 0 <= k <= n
        invariant count == FreeCount(regBitmap[..k])
      {
        assert regBitmap[..k + 1][..k] == regBitmap[..k];
        if !regBitmap[k] {
          count := count + 1;
        }
        k := k + 1;
      }
      assert regBitmap[..n] == regBitmap;
      FreeCountPositive(regBitmap);
    }

    /** `willBeUsedLater(var, currentIndex)`. */
    function WillBeUsedLater(v: Value, currentIndex: int): bool
      reads this
    {
      UsedLater(variableLifetime, v, currentIndex)
    }

    /** `analyzeVariableLifetime(instructions)`. */
    method AnalyzeVariableLifetime(insts: seq<IRInst>)
      modifies this`variableLifetime
      ensures variableLifetime == LifetimeTable(insts)
    {
      variableLifetime := map[];
      var i := 0;
      while i < |insts|
        invariant 0 <= i <= |insts|
        invariant variableLifetime == LifetimeTable(insts[..i])
      {
        var inst := insts[i];
        assert insts[..i + 1][..i] == insts[..i];
        if inst.result.Some? {
          var result := inst.result.value;
          if result !in variableLifetime {
            variableLifetime := variableLifetime[result := (i, i)];
          }
        }
        ghost var afterDef := variableLifetime;
        var j := 0;
        while j < |inst.operands|
          invariant 0 <= j <= |inst.operands|
          invariant variableLifetime == UsesAt(afterDef, inst.operands[..j], i)
        {
          var operand := inst.operands[j];
          assert inst.operands[..j + 1][..j] == inst.operands[..j];
          if operand in variableLifetime {
            variableLifetime := variableLifetime[operand := (variableLifetime[operand].0, i)];
          } else {
            variableLifetime := variableLifetime[operand := (0, i)];
          }
          j := j + 1;
        }
        assert inst.operands[..j] == inst.operands;
        i := i + 1;
      }
      assert insts[..i] == insts;
    }

    /** `releaseUnusedTempVars(currentIndex)`. */
    method ReleaseUnusedTempVars(currentIndex: int) returns (freedCount: int)
      requires Valid()
      modifies this`regBitmap, this`usedBitmap, this`regValues, this`loadReg, this`dynamicTempAllocations, this`tempVarPriority
      ensures (State(), freedCount) == ReleaseSpec(old(State()), variableLifetime, currentIndex, n)
      ensures Valid()
    {
      freedCount := 0;
      var toRelease: seq<Value> := [];
      var i := 0;
      while i < |regValues|
        invariant 0 <= i <= |regValues|
        invariant toRelease == ToRelease(regValues[..i], variableLifetime, currentIndex)
      {
        var x := regValues[i];
        assert regValues[..i + 1][..i] == regValues[..i];
        if IsTempVariable(Some(x)) && !WillBeUsedLater(x, currentIndex) {
          toRelease := toRelease + [x];
        }
        i := i + 1;
      }
      assert regValues[..i] == regValues;
      ghost var s0 := State();
      var j := 0;
      while j < |toRelease|
        invariant 0 <= j <= |toRelease|
        invariant Valid()
        invariant State() == FreeAll(s0, toRelease[..j], n)
        invariant freedCount == j
      {
        PrefixStep(toRelease, j);
        FreeValue(Some(toRelease[j]));
        freedCount := freedCount + 1;
        j := j + 1;
      }
      assert toRelease[..j] == toRelease;
    }

    /** The victim scan of `evictForTemp`: the chosen value, its register and its rank. */
    method FindVictim(priority: int) returns (victim: Option<Value>, victimReg: int, maxPriority: int)
      requires Valid()
      ensures var (b, m) := VictimScan(State(), priority, |regValues|);
        maxPriority == m
        && (b == -1 ==> victim.None?)
        && (b != -1 ==> victim == Some(regValues[b]) && victimReg == loadReg[regValues[b]])
    {
      victim := None;
      victimReg := -1;
      maxPriority := 0;
      ghost var s := State();
      ghost var b := -1;
      var q := regValues;
      var i := 0;
      while i < |q|
        invariant 0 <= i <= |q| && q == s.regValues
        invariant (b, maxPriority) == VictimScan(s, priority, i)
        invariant b == -1 ==> victim.None?
        invariant b != -1 ==> victim == Some(q[b]) && victimReg == loadReg[q[b]]
      {
        var x := q[i];
        var p := 10;
        if IsTempVariable(Some(x)) {
          if x in tempVarPriority {
            p := tempVarPriority[x];
          } else {
            p := 5;
          }
        }
        assert p == Rank(s, x);
        if p > priority && p > maxPriority {
          victim := Some(x);
          victimReg := loadReg[x];
          maxPriority := p;
          b := i;
        }
        i := i + 1;
      }
    }

    /** `evictForTemp(newTempVar, priority)`; the requesting value is not used. */
    method EvictForTemp(newTempVar: Option<Value>, priority: int) returns (reg: int)
      requires Valid()
      modifies this`regBitmap, this`usedBitmap, this`regValues, this`loadReg, this`dynamicTempAllocations, this`tempVarPriority
      ensures (State(), reg) == EvictSpec(old(State()), priority, n)
      ensures Valid()
    {
      var victim, victimReg, _ := FindVictim(priority);
      if victim.Some? && victimReg != -1 {
        FreeValue(victim);
        return victimReg;
      }
      return -1;
    }

    /** The candidate scan of `smartFreeByLifetime`: queued temporaries of priority at most `urgency`. */
    method CollectCandidates(urgency: int) returns (candidates: seq<Value>)
      ensures candidates == Candidates(State(), regValues, urgency)
    {
      candidates := [];
      var i := 0;
      while i < |regValues|
        invariant 0 <= i <= |regValues|
        invariant candidates == Candidates(State(), regValues[..i], urgency)
      {
        var x := regValues[i];
        assert regValues[..i + 1][..i] == regValues[..i];
        if IsTempVariable(Some(x)) {
          var p := if x in tempVarPriority then tempVarPriority[x] else 5;
          if urgency >= p {
            candidates := candidates + [x];
          }
        }
        i := i + 1;
      }
      assert regValues[..i] == regValues;
    }

    /** The freeing loop of `smartFreeByLifetime`: free `vs` in order, stopping once `urgency` values are freed. */
    method FreeFirst(vs: seq<Value>, urgency: int) returns (freedCount: int)
      requires Valid()
      modifies this`regBitmap, this`usedBitmap, this`regValues, this`loadReg, this`dynamicTempAllocations, this`tempVarPriority
      ensures freedCount == FreedCount(|vs|, urgency)
      ensures State() == FreeAll(old(State()), vs[..freedCount], n)
      ensures Valid()
    {
      freedCount := 0;
      ghost var s0 := State();
      ghost var k := FreedCount(|vs|, urgency);
      var j := 0;
      while j < |vs|
        invariant 0 <= j <= k && j <= |vs| && (j < |vs| ==> j < k)
        invariant Valid()
        invariant State() == FreeAll(s0, vs[..j], n)
        invariant freedCount == j
      {
        PrefixStep(vs, j);
        FreeValue(Some(vs[j]));
        freedCount := freedCount + 1;
        j := j + 1;
        if freedCount >= urgency {
          assert j == k;
          break;
        }
      }
      assert j == k;
    }

    /** `smartFreeByLifetime(urgency)`. */
    method SmartFreeByLifetime(urgency: int) returns (freedCount: int)
      requires Valid()
      modifies this`regBitmap, this`usedBitmap, this`regValues, this`loadReg, this`dynamicTempAllocations, this`tempVarPriority
      ensures (State(), freedCount) == SmartFreeSpec(old(State()), urgency, n)
      ensures Valid()
    {
      var candidates := CollectCandidates(urgency);
      var sorted := SortByRank(State(), candidates);
      freedCount := FreeFirst(sorted, urgency);
    }

    /** Bind `x` to the free register `k` as the tiers of `dynamicAllocateTemp` do. */
    method Claim(x: Value, k: int, prio: int, record: bool, recordName: bool)
      requires Valid() && 0 <= k < n && !regBitmap[k] && x !in loadReg
      modifies this`regBitmap, this`usedBitmap, this`regValues, this`loadReg, this`dynamicTempAllocations, this`tempVarPriority
      ensures State() == BindTemp(old(State()), x, k, prio, record, recordName, n)
      ensures Valid()
    {
      BitmapSet(k);
      loadReg := loadReg[x := k];
      regValues := regValues + [x];
      if recordName {
        dynamicTempAllocations := dynamicTempAllocations[x.name := k];
      }
      if record {
        tempVarPriority := tempVarPriority[x := prio];
      }
    }

    /** `dynamicAllocateTemp(tempVar, instructionIndex)`; the default index is -1. */
    method DynamicAllocateTemp(tempVar: Option<Value>, instructionIndex: int) returns (reg: int)
      requires Valid()
      modifies this`regBitmap, this`usedBitmap, this`regValues, this`loadReg, this`dynamicTempAllocations, this`tempVarPriority
      ensures (State(), reg) == DynamicAllocateSpec(old(State()), variableLifetime, tempVar, instructionIndex, n)
      ensures Valid()
    {
      if tempVar.None? {
        return -1;
      }
      var x := tempVar.value;
      if x in loadReg {
        return loadReg[x];
      }
      var varName := x.name;
      if IsTempVariable(tempVar) && (|varName| == 0 || varName[0] == 't') {
        var k := FindFree(0, 4);
        if k != -1 {
          Claim(x, k, 1, true, |varName| > 0);
          return k;
        }
        k := FindFree(4, 8);
        if k != -1 {
          Claim(x, k, 2, true, |varName| > 0);
          return k;
        }
      }
      if instructionIndex != -1 {
        reg := ReleaseAndClaim(x, instructionIndex);
        return;
      }
      reg := EvictForTemp(tempVar, 3);
    }

    /** The third tier of `dynamicAllocateTemp`, entered with a known instruction index. */
    method ReleaseAndClaim(x: Value, instructionIndex: int) returns (reg: int)
      requires Valid() && x !in loadReg
      modifies this`regBitmap, this`usedBitmap, this`regValues, this`loadReg, this`dynamicTempAllocations, this`tempVarPriority
      ensures (State(), reg) == ReleaseTier(old(State()), variableLifetime, x, instructionIndex, n)
      ensures Valid()
    {
      ghost var s0 := State();
      var released := ReleaseUnusedTempVars(instructionIndex);
      ReleaseKeepsUnbound(s0, variableLifetime, instructionIndex, x, n);
      var k := FindFree(0, 8);
      if k != -1 {
        var rec := IsTempVariable(Some(x)) && |x.name| > 0;
        Claim(x, k, 3, rec, rec);
        return k;
      }
      reg := EvictForTemp(Some(x), 3);
    }
  }
}
