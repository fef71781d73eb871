/** Small shared vocabulary: optional values, integer bounds, positions and byte strings.
    A `string` stands for a Go string, one character per byte. */
module Prelude {

  datatype Option<+T> = None | Some(value: T) {
    function GetOr(default: T): T {
      match this
      case Some(v) => v
      case None => default
    }
  }

  const MIN_INT64 := -0x8000_0000_0000_0000
  const MAX_INT64 := 0x7FFF_FFFF_FFFF_FFFF

  /** Positions below `bound`, in ascending order. */
  predicate Increasing(indices: seq<nat>, bound: nat) {
    && (forall k | 0 <= k < |indices| :: indices[k] < bound)
    && forall j, k | 0 <= j < k < |indices| :: indices[j] < indices[k]
  }

  /** `picked` are the entries of `all` at the given positions, in order. */
  predicate StandAt<T(==)>(picked: seq<T>, all: seq<T>, at: seq<nat>) {
    Increasing(at, |all|) && |picked| == |at| && forall k | 0 <= k < |at| :: picked[k] == all[at[k]]
  }

  lemma Regroup<T>(a: seq<T>, b: seq<T>, c: seq<T>)
    ensures a + b + c == a + (b + c)
  {
  }

  /** One more entry is considered, and picked or not. */
  lemma StandAtExtends<T>(picked: seq<T>, all: seq<T>, at: seq<nat>, item: T, kept: bool)
    requires StandAt(picked, all, at)
    ensures var more := at + if kept then [|all|] else [];
      && StandAt(picked + (if kept then [item] else []), all + [item], more)
      && forall i :: i in more <==> i in at || (kept && i == |all|)
  {
  }

  predicate HasPrefix(s: string, prefix: string) {
    prefix <= s
  }

  /** ASCII white space, as removed by strings.TrimSpace. */
  predicate IsSpace(c: char) {
    c == ' ' || c == '\t' || c == '\n' || c == '\r' || c == '\U{0B}' || c == '\U{0C}'
  }

  predicate Blank(s: string) {
    forall i | 0 <= i < |s| :: IsSpace(s[i])
  }

  function TrimLeft(s: string): string {
    if s != "" && IsSpace(s[0]) then TrimLeft(s[1..]) else s
  }

  function TrimRight(s: string): string {
    if s != "" && IsSpace(s[|s| - 1]) then TrimRight(s[..|s| - 1]) else s
  }

  function TrimSpace(s: string): string {
    TrimRight(TrimLeft(s))
  }

  /** The concatenation of the parts, as strings.Join(parts, "") builds it. */
  function Concat(parts: seq<string>): string {
    if parts == [] then "" else Concat(parts[..|parts| - 1]) + parts[|parts| - 1]
  }

  /** Go's integer division by two, which truncates toward zero. */
  function HalfTruncated(n: int): int {
    if n >= 0 then n / 2 else -((-n) / 2)
  }

  lemma HalfIsTruncated(n: int)
    ensures n >= 0 ==> 2 * HalfTruncated(n) <= n <= 2 * HalfTruncated(n) + 1
    ensures n <= 0 ==> 2 * HalfTruncated(n) - 1 <= n <= 2 * HalfTruncated(n)
  {
  }

  // ----- trimming -----

  lemma {:induction false} TrimLeftOfBlank(blank: string, s: string)
    requires Blank(blank)
    ensures TrimLeft(blank + s) == TrimLeft(s)
  {
    if blank == "" {
      assert blank + s == s;
    } else {
      assert (blank + s)[1..] == blank[1..] + s;
      TrimLeftOfBlank(blank[1..], s);
    }
  }

  lemma {:induction false} TrimRightOfBlank(s: string, blank: string)
    requires Blank(blank)
    ensures TrimRight(s + blank) == TrimRight(s)
  {
    if blank == "" {
      assert s + blank == s;
    } else {
      assert (s + blank)[..|s + blank| - 1] == s + blank[..|blank| - 1];
      TrimRightOfBlank(s, blank[..|blank| - 1]);
    }
  }

  /** A string that neither starts nor ends with white space. */
  predicate Trimmed(s: string) {
    s == "" || (!IsSpace(s[0]) && !IsSpace(s[|s| - 1]))
  }

  lemma {:induction false} TrimLeftStart(s: string)
    ensures TrimLeft(s) == "" || !IsSpace(TrimLeft(s)[0])
  {
    if s != "" && IsSpace(s[0]) {
      TrimLeftStart(s[1..]);
    }
  }

  lemma {:induction false} TrimRightEnd(s: string)
    ensures TrimRight(s) <= s
    ensures TrimRight(s) == "" || !IsSpace(TrimRight(s)[|TrimRight(s)| - 1])
  {
    if s != "" && IsSpace(s[|s| - 1]) {
      TrimRightEnd(s[..|s| - 1]);
    }
  }

  lemma TrimSpaceIsTrimmed(s: string)
    ensures Trimmed(TrimSpace(s))
  {
    TrimLeftStart(s);
    TrimRightEnd(TrimLeft(s));
  }

  /** Trimming takes the blanks off both ends of a trimmed core. */
  lemma TrimSpaceOfPadded(before: string, core: string, after: string)
    requires Blank(before) && Trimmed(core) && Blank(after)
    ensures TrimSpace(before + core + after) == core
  {
    assert before + core + after == before + (core + after);
    TrimLeftOfBlank(before, core + after);
    if core == "" {
      assert core + after == after && after + "" == after;
      TrimLeftOfBlank(after, "");
    } else {
      TrimRightOfBlank(core, after);
    }
  }
}
