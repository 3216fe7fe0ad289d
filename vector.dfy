/** The array-backed generic vector of `main.cpp` and its command loop.

    `Vector<T>` owns a heap array `elements` of length `capacity` whose
    first `size` slots hold the contents. The sequence functions below say
    what each operation does to the contents; the class methods are proved
    against them. */
module ArrayVector {
  import opened Wrappers

  /** The contents with the element at `index` taken out. */
  function Removed<T>(s: seq<T>, index: int): (r: seq<T>)
    requires 0 <= index < |s|
    ensures |r| == |s| - 1
    ensures forall k :: 0 <= k < index ==> r[k] == s[k]
    ensures forall k :: index <= k < |r| ==> r[k] == s[k + 1]
  {
    s[..index] + s[index + 1..]
  }

  /** Left rotation by `num`: the first `num mod n` elements move, in
      order, behind the others. */
  function RotateLeft<T>(s: seq<T>, num: nat): (r: seq<T>)
    ensures |r| == |s|
  {
    if |s| == 0 then s else s[num % |s|..] + s[..num % |s|]
  }

  /** Right rotation by `num`: the last `num mod n` elements move, in
      order, in front of the others. */
  function RotateRight<T>(s: seq<T>, num: nat): (r: seq<T>)
    ensures |r| == |s|
  {
    if |s| == 0 then s else s[|s| - num % |s|..] + s[..|s| - num % |s|]
  }

  /** `s` with the segment `[a, b]` reversed in place and everything else
      as it was. */
  function ReverseSegment<T>(s: seq<T>, a: int, b: int): (r: seq<T>)
    requires 0 <= a && b < |s|
    ensures |r| == |s|
  {
    seq(|s|, k requires 0 <= k < |s| => if a <= k <= b then s[a + b - k] else s[k])
  }

  // Modular arithmetic used by the index characterisations.

  lemma MulSign(d: int, n: int)
    requires n > 0
    ensures d >= 1 ==> d * n >= n
    ensures d <= -1 ==> d * n <= -n
  {
  }

  lemma ModUnique(a: int, n: int, q: int, r: int)
    requires n > 0 && 0 <= r < n && a == q * n + r
    ensures a / n == q && a % n == r
  {
    var q', r' := a / n, a % n;
    assert (q - q') * n == r' - r;
    MulSign(q - q', n);
  }

  lemma ModShift(x: int, n: int, m: int)
    requires n > 0
    ensures (x + m * n) % n == x % n
  {
    ModUnique(x + m * n, n, x / n + m, x % n);
  }

  lemma ModSmall(x: int, n: int)
    requires n > 0 && 0 <= x < 2 * n
    ensures x % n == if x < n then x else x - n
  {
  }

  lemma DivDecompose(a: int, n: int)
    requires n > 0
    ensures a == (a / n) * n + a % n && 0 <= a % n < n
  {
  }

  /** `(i - num) mod n` in terms of `num mod n`. */
  lemma BackwardIndex(i: int, n: int, num: nat)
    requires 0 <= i < n
    ensures (i - num) % n == if i >= num % n then i - num % n else i - num % n + n
  {
    var k := num % n;
    var q := num / n;
    DivDecompose(num, n);
    assert i - num == (i - k) + (-q) * n;
    ModShift(i - k, n, -q);
    if i >= k {
      ModSmall(i - k, n);
    } else {
      assert (i - k + n) + (-1) * n == i - k;
      ModShift(i - k + n, n, -1);
      ModSmall(i - k + n, n);
    }
  }

  /** Element `i` of a left rotation is the old element
      `(i + num mod n) mod n`. */
  lemma RotateLeftAt<T>(s: seq<T>, num: nat, i: int)
    requires 0 <= i < |s|
    ensures RotateLeft(s, num)[i] == s[(i + num % |s|) % |s|]
  {
    ModSmall(i + num % |s|, |s|);
  }

  /** Element `i` of a right rotation is the old element `(i - num) mod n`. */
  lemma RotateRightAt<T>(s: seq<T>, num: nat, i: int)
    requires 0 <= i < |s|
    ensures RotateRight(s, num)[i] == s[(i - num) % |s|]
  {
    BackwardIndex(i, |s|, num);
  }

  /** Reversing the same segment twice restores the sequence. */
  lemma ReverseSegmentInvolutive<T>(s: seq<T>, a: int, b: int)
    requires 0 <= a && b < |s|
    ensures ReverseSegment(ReverseSegment(s, a, b), a, b) == s
  {
  }

  /** Reversing `[0, k-1]`, then `[k, n-1]`, then `[0, n-1]` rotates the
      first `n` elements left by `k`. */
  lemma TripleReversal<T>(s: seq<T>, a: seq<T>, b: seq<T>, c: seq<T>, n: nat, k: nat)
    requires 0 < k < n <= |s|
    requires a == ReverseSegment(s, 0, k - 1)
    requires b == ReverseSegment(a, k, n - 1)
    requires c == ReverseSegment(b, 0, n - 1)
    ensures c[..n] == RotateLeft(s[..n], k)
  {
    ModSmall(k, n);
    var rot := RotateLeft(s[..n], k);
    assert rot == s[k..n] + s[..k];
    forall i | 0 <= i < n
      ensures c[i] == rot[i]
    {
      if n - 1 - i < k {
        assert c[i] == a[n - 1 - i] == s[i + k - n];
      } else {
        assert c[i] == b[n - 1 - i] == s[i + k];
      }
    }
  }

  /** A rotation by a multiple of the length changes nothing. */
  lemma RotateByMultiple<T>(s: seq<T>, num: nat)
    requires |s| > 0 && num % |s| == 0
    ensures RotateLeft(s, num) == s && RotateRight(s, num) == s
  {
    assert s[0..] + s[..0] == s;
    assert s[|s|..] + s[..|s|] == s;
  }

  /** Only the shift modulo the length matters. */
  lemma LeftByReduced<T>(s: seq<T>, num: nat)
    requires |s| > 0
    ensures RotateLeft(s, num % |s|) == RotateLeft(s, num)
  {
    ModSmall(num % |s|, |s|);
  }

  /** A left rotation by `n - (num mod n)` is the right rotation by `num`. */
  lemma RotateRightByLeft<T>(s: seq<T>, num: nat)
    requires |s| > 0 && num % |s| != 0
    ensures RotateLeft(s, |s| - num % |s|) == RotateRight(s, num)
  {
    ModSmall(|s| - num % |s|, |s|);
  }

  /** Rotating right and then left by the same amount restores the
      contents, and so does the other order. */
  lemma RotateLeftUndoesRight<T>(s: seq<T>, num: nat)
    ensures RotateLeft(RotateRight(s, num), num) == s
    ensures RotateRight(RotateLeft(s, num), num) == s
  {
    if |s| > 0 {
      var n := |s|;
      var k := num % n;
      var r := RotateRight(s, num);
      assert r[k..] == s[..n - k] && r[..k] == s[n - k..];
      assert s[..n - k] + s[n - k..] == s;
      var l := RotateLeft(s, num);
      assert l[n - k..] == s[..k] && l[..n - k] == s[k..];
      assert s[..k] + s[k..] == s;
    }
  }

  /** Rotations rearrange the elements and keep their number. */
  lemma RotateLeftPermutes<T>(s: seq<T>, num: nat)
    ensures |RotateLeft(s, num)| == |s|
    ensures multiset(RotateLeft(s, num)) == multiset(s)
  {
    if |s| > 0 {
      var k := num % |s|;
      assert s == s[..k] + s[k..];
    }
  }

  lemma RotateRightPermutes<T>(s: seq<T>, num: nat)
    ensures |RotateRight(s, num)| == |s|
    ensures multiset(RotateRight(s, num)) == multiset(s)
  {
    if |s| > 0 {
      var k := |s| - num % |s|;
      assert s == s[..k] + s[k..];
    }
  }

  class Vector<T(0)> {
    var elements: array<T>
    var capacity: nat
    var size: nat

    ghost predicate Valid()
      reads this
    {
      capacity == elements.Length && size <= capacity
    }

    /** The elements the vector holds. */
    function Contents(): (s: seq<T>)
      requires Valid()
      reads this, elements
      ensures |s| == size
    {
      elements[..size]
    }

    /** The default constructor: no storage, no elements. */
    constructor ()
      ensures Valid() && fresh(elements)
      ensures capacity == 0 && Contents() == []
    {
      elements := new T[0];
      capacity := 0;
      size := 0;
    }

    /** `resize`: when full, moves the elements to a fresh array of 10
        slots (from none) or twice as many; otherwise nothing changes. */
    method Resize()
      requires Valid()
      modifies this
      ensures Valid()
      ensures size == old(size) && Contents() == old(Contents())
      ensures old(size) >= old(capacity) ==>
        capacity == (if old(capacity) == 0 then 10 else 2 * old(capacity)) && fresh(elements)
      ensures old(size) < old(capacity) ==> capacity == old(capacity) && elements == old(elements)
      ensures size < capacity
    {
      if size >= capacity {
        var newCapacity: nat;
        if capacity == 0 {
          newCapacity := 10;
        } else {
          newCapacity := capacity * 2;
        }
        var newElements := new T[newCapacity];
        for i := 0 to size
          invariant size == old(size) && capacity == old(capacity) && elements == old(elements)
          invariant forall k :: 0 <= k < i ==> newElements[k] == elements[k]
        {
          newElements[i] := elements[i];
        }
        assert newElements[..size] == elements[..size];
        elements := newElements;
        capacity := newCapacity;
      }
    }

    /** `add`: the value goes after the existing elements. */
    method Add(value: T)
      requires Valid()
      modifies this, elements
      ensures Valid()
      ensures Contents() == old(Contents()) + [value]
      ensures old(size) >= old(capacity) ==>
        capacity == (if old(capacity) == 0 then 10 else 2 * old(capacity))
      ensures old(size) < old(capacity) ==> capacity == old(capacity)
      ensures elements == old(elements) || fresh(elements)
    {
      Resize();
      ghost var before := Contents();
      assert before == old(Contents());
      elements[size] := value;
      assert elements[..size] == before;
      size := size + 1;
      assert Contents() == before + [value];
    }

    /** `remove`: an out-of-range index is refused and changes nothing;
        otherwise the later elements move down by one. */
    method Remove(index: int) returns (ok: bool)
      requires Valid()
      modifies this, elements
      ensures Valid()
      ensures ok <==> 0 <= index < old(size)
      ensures ok ==> Contents() == Removed(old(Contents()), index)
      ensures !ok ==> Contents() == old(Contents())
      ensures capacity == old(capacity) && elements == old(elements)
    {
      if index < 0 || index >= size {
        return false;
      }
      ghost var s := elements[..size];
      var i := index;
      while i < size - 1
        invariant index <= i <= size - 1
        invariant size == old(size) && elements == old(elements) && capacity == old(capacity)
        invariant |s| == size <= elements.Length
        invariant forall k :: 0 <= k < index ==> elements[k] == s[k]
        invariant forall k :: index <= k < i ==> elements[k] == s[k + 1]
        invariant forall k :: i <= k < size ==> elements[k] == s[k]
      {
        elements[i] := elements[i + 1];
        i := i + 1;
      }
      size := size - 1;
      assert Contents() == Removed(s, index);
      return true;
    }

    /** `operator[]` for reading: the element, or `None` where the source
        throws `out_of_range`. */
    method At(index: int) returns (r: Option<T>)
      requires Valid()
      ensures r.Some? <==> 0 <= index < size
      ensures r.Some? ==> r.value == Contents()[index]
    {
      if index < 0 || index >= size {
        return None;
      }
      return Some(elements[index]);
    }

    /** `update`: an out-of-range index is refused; otherwise exactly that
        slot changes. */
    method Update(index: int, value: T) returns (ok: bool)
      requires Valid()
      modifies elements
      ensures Valid()
      ensures ok <==> 0 <= index < size
      ensures ok ==> Contents() == old(Contents())[index := value]
      ensures !ok ==> Contents() == old(Contents())
    {
      if index < 0 || index >= size {
        return false;
      }
      elements[index] := value;
      return true;
    }

    /** `get`: the element at `index`, or the caller's `value` untouched
        when out of range. */
    method Get(index: int, value: T) returns (ok: bool, out: T)
      requires Valid()
      ensures ok <==> 0 <= index < size
      ensures ok ==> out == Contents()[index]
      ensures !ok ==> out == value
    {
      if index < 0 || index >= size {
        return false, value;
      }
      return true, elements[index];
    }

    /** The `reverse(start, end)` lambda: swaps inwards from both ends. */
    method Reverse(start: int, end: int)
      requires Valid()
      requires 0 <= start && end < size
      modifies elements
      ensures elements[..] == ReverseSegment(old(elements[..]), start, end)
    {
      ghost var s := elements[..];
      var lo, hi := start, end;
      while lo < hi
        invariant start <= lo && hi <= end && lo + hi == start + end
        invariant |s| == elements.Length && end < elements.Length
        invariant (lo == start && hi == end) || lo <= hi + 1
        invariant forall k :: start <= k < lo ==> elements[k] == s[start + end - k]
        invariant forall k :: hi < k <= end ==> elements[k] == s[start + end - k]
        invariant forall k :: 0 <= k < elements.Length && !(start <= k < lo) && !(hi < k <= end) ==>
          elements[k] == s[k]
        decreases hi - lo
      {
        elements[lo], elements[hi] := elements[hi], elements[lo];
        lo := lo + 1;
        hi := hi - 1;
      }
      assert elements[..] == ReverseSegment(s, start, end);
    }

    /** `lsh`: an empty vector accepts any shift; a negative shift of a
        non-empty vector is refused; otherwise the contents rotate left by
        `num mod size`. */
    method Lsh(num: int) returns (ok: bool)
      requires Valid()
      modifies elements
      ensures Valid()
      ensures ok <==> old(size) == 0 || num >= 0
      ensures ok && num >= 0 ==> Contents() == RotateLeft(old(Contents()), num)
      ensures !ok || num < 0 ==> Contents() == old(Contents())
    {
      if size == 0 {
        return true;
      }
      if num < 0 {
        return false;
      }
      var k := num % size;
      if k == 0 {
        RotateByMultiple(Contents(), num);
        return true;
      }
      assert 0 < k < size;
      RotateByReversals(k);
      LeftByReduced(old(Contents()), num);
      return true;
    }

    /** The body of `lsh` for a reduced shift `0 < k < size`: the three
        reversals. */
    method RotateByReversals(k: nat)
      requires Valid() && 0 < k < size
      modifies elements
      ensures Valid() && Contents() == RotateLeft(old(Contents()), k)
    {
      ghost var s := elements[..];
      ghost var before := old(Contents());
      assert s[..size] == before;
      Reverse(0, k - 1);
      ghost var a := elements[..];
      assert a == ReverseSegment(s, 0, k - 1);
      Reverse(k, size - 1);
      ghost var b := elements[..];
      assert b == ReverseSegment(a, k, size - 1);
      Reverse(0, size - 1);
      ghost var c := elements[..];
      assert c == ReverseSegment(b, 0, size - 1);
      TripleReversal(s, a, b, c, size, k);
      assert Contents() == c[..size];
    }

    /** `rsh`: the same refusals as `lsh`; otherwise a right rotation by
        `num`, done as a left rotation by `size - num mod size`. */
    method Rsh(num: int) returns (ok: bool)
      requires Valid()
      modifies elements
      ensures Valid()
      ensures ok <==> old(size) == 0 || num >= 0
      ensures ok && num >= 0 ==> Contents() == RotateRight(old(Contents()), num)
      ensures !ok || num < 0 ==> Contents() == old(Contents())
    {
      if size == 0 {
        return true;
      }
      if num < 0 {
        return false;
      }
      var k := num % size;
      if k == 0 {
        RotateByMultiple(Contents(), num);
        return true;
      }
      ok := Lsh(size - k);
      RotateRightByLeft(old(Contents()), num);
    }
  }

  /** `lsh(k)` after `rsh(k)` gives back the original contents. */
  method ShiftRoundTrip<T(0)>(v: Vector<T>, num: nat)
    requires v.Valid()
    modifies v.elements
    ensures v.Valid() && v.Contents() == old(v.Contents())
  {
    var _ := v.Rsh(num);
    var _ := v.Lsh(num);
    RotateLeftUndoesRight(old(v.Contents()), num);
  }

  // The command loop of `main`.

  /** One command as read from the input. Any other word does nothing. */
  datatype Command<T> = Add(value: T) | Remove(index: int) | Print(index: int)
                      | Update(index: int, value: T) | Lsh(num: int) | Rsh(num: int) | Unknown

  /** One output line: `ERROR` or a printed value. */
  datatype Line<T> = Error | Value(value: T)

  /** What one command does to the contents and prints. */
  function Step<T>(s: seq<T>, c: Command<T>): (seq<T>, seq<Line<T>>) {
    match c
    case Add(v) => (s + [v], [])
    case Remove(i) => if 0 <= i < |s| then (Removed(s, i), []) else (s, [Error])
    case Print(i) => if 0 <= i < |s| then (s, [Value(s[i])]) else (s, [Error])
    case Update(i, v) => if 0 <= i < |s| then (s[i := v], []) else (s, [Error])
    case Lsh(n) => if |s| == 0 then (s, []) else if n < 0 then (s, [Error]) else (RotateLeft(s, n), [])
    case Rsh(n) => if |s| == 0 then (s, []) else if n < 0 then (s, [Error]) else (RotateRight(s, n), [])
    case Unknown => (s, [])
  }

  /** The contents and the lines printed after running `cmds` from `s`. */
  function Run<T>(s: seq<T>, cmds: seq<Command<T>>): (seq<T>, seq<Line<T>>)
    decreases |cmds|
  {
    if cmds == [] then (s, [])
    else
      var (s1, out1) := Step(s, cmds[0]);
      var (s2, out2) := Run(s1, cmds[1..]);
      (s2, out1 + out2)
  }

  /** Running a prefix and then one more command. */
  lemma {:induction false} RunSnoc<T>(s: seq<T>, cmds: seq<Command<T>>, c: Command<T>)
    ensures Run(s, cmds + [c]).0 == Step(Run(s, cmds).0, c).0
    ensures Run(s, cmds + [c]).1 == Run(s, cmds).1 + Step(Run(s, cmds).0, c).1
    decreases |cmds|
  {
    if cmds == [] {
      assert cmds + [c] == [c];
    } else {
      assert (cmds + [c])[1..] == cmds[1..] + [c];
      RunSnoc(Step(s, cmds[0]).0, cmds[1..], c);
    }
  }

  function Printed<T>(s: seq<T>): (r: seq<Line<T>>)
    ensures |r| == |s|
    ensures forall k :: 0 <= k < |s| ==> r[k] == Value(s[k])
  {
    seq(|s|, k requires 0 <= k < |s| => Value(s[k]))
  }

  /** One command of the input loop, applied to the vector: its new
      contents and its printed lines are those of `Step`. */
  method ExecuteCommand<T(0)>(arr: Vector<T>, c: Command<T>) returns (lines: seq<Line<T>>)
    requires arr.Valid()
    modifies arr, arr.elements
    ensures arr.Valid() && (arr.elements == old(arr.elements) || fresh(arr.elements))
    ensures (arr.Contents(), lines) == Step(old(arr.Contents()), c)
  {
    var ok: bool;
    lines := [];
    match c {
      case Add(v) =>
        arr.Add(v);
      case Remove(index) =>
        ok := arr.Remove(index);
        if !ok { lines := [Error]; }
      case Print(index) =>
        var value: T := *;
        ok, value := arr.Get(index, value);
        if !ok { lines := [Error]; } else { lines := [Value(value)]; }
      case Update(index, value) =>
        ok := arr.Update(index, value);
        if !ok { lines := [Error]; }
      case Lsh(num) =>
        ok := arr.Lsh(num);
        if !ok { lines := [Error]; }
      case Rsh(num) =>
        ok := arr.Rsh(num);
        if !ok { lines := [Error]; }
      case Unknown =>
    }
  }

  /** The whole program for one element type: every command's output, then
      the final contents one per line. */
  method Execute<T(0)>(cmds: seq<Command<T>>) returns (out: seq<Line<T>>)
    ensures out == Run([], cmds).1 + Printed(Run([], cmds).0)
  {
    var arr := new Vector<T>();
    out := [];
    for i := 0 to |cmds|
      invariant arr.Valid() && fresh(arr) && fresh(arr.elements)
      invariant (arr.Contents(), out) == Run([], cmds[..i])
    {
      RunSnoc([], cmds[..i], cmds[i]);
      assert cmds[..i + 1] == cmds[..i] + [cmds[i]];
      var lines := ExecuteCommand(arr, cmds[i]);
      out := out + lines;
    }
    assert cmds[..|cmds|] == cmds;
    var i := 0;
    var final := arr.Contents();
    while i < arr.size
      invariant 0 <= i <= arr.size && final == arr.Contents()
      invariant out == Run([], cmds).1 + Printed(final)[..i]
    {
      out := out + [Value(arr.elements[i])];
      i := i + 1;
    }
    assert Printed(final)[..i] == Printed(final);
  }
}
