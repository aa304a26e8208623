/** Values shared by every part of the mind-map model: optional values,
    failure reports, plane geometry and the string tests Foundation offers. */
module Common {

  datatype Option<T> = None | Some(value: T) {
    function GetOr(default: T): T {
      match this
      case Some(v) => v
      case None => default
    }
  }

  /** How a user action ended: the error message is the text the app shows in its alert. */
  datatype Status = Ok | Failed(message: string)

  /** A point and a size in canvas coordinates (CGPoint, CGSize). CGFloat arithmetic in the
      code is only constant additions, halvings and comparisons, which `real` models exactly. */
  datatype Point = Point(x: real, y: real)
  datatype Size = Size(width: real, height: real)

  /** A frame (CGRect) given by its origin and its size. */
  datatype Rect = Rect(x: real, y: real, width: real, height: real) {
    /** CGRect's midpoint, which UIView reports as `center`. */
    function Center(): Point {
      Point(x + width / 2.0, y + height / 2.0)
    }
  }

  /** A UIImage, as far as the app tells images apart: a rendering of the canvas (its
      pixels), or an image from the app's asset catalogue (its asset name). */
  datatype Image = Rendered(pixels: seq<int>) | Asset(name: string)

  /** `UIImage(named: "folder")`, the preview shown for a locked or unreadable map. */
  const Folder: Image := Asset("folder")

  /** `s.hasSuffix(suffix)`. */
  predicate HasSuffix(s: string, suffix: string) {
    |suffix| <= |s| && s[|s| - |suffix|..] == suffix
  }

  /** True when `sub` occurs in `s` starting at index `i`. */
  predicate OccursAt(s: string, sub: string, i: nat) {
    i + |sub| <= |s| && s[i..i + |sub|] == sub
  }

  /** Foundation's `s.contains(sub)` (that is, `s.range(of: sub) != nil`): a case-sensitive
      substring test under which the empty string is found nowhere. */
  function Contains(s: string, sub: string): (r: bool)
    ensures r <==> sub != [] && exists i: nat :: OccursAt(s, sub, i)
  {
    sub != [] && ContainsFrom(s, sub, 0)
  }

  /** Searches for `sub` at the indices `i`, `i + 1`, ... of `s`. */
  function ContainsFrom(s: string, sub: string, i: nat): (r: bool)
    requires i <= |s|
    ensures r <==> exists k: nat :: i <= k && OccursAt(s, sub, k)
    decreases |s| - i
  {
    if OccursAt(s, sub, i) then true
    else if i == |s| then false
    else ContainsFrom(s, sub, i + 1)
  }

  /** The members of `CharacterSet.whitespaces`: the Unicode space separators
      (general category Zs) and the character tabulation. Line breaks are not members. */
  predicate IsWhitespace(c: char) {
    || c == '\t' || c == ' ' || c == '\U{00A0}' || c == '\U{1680}'
    || ('\U{2000}' <= c <= '\U{200A}')
    || c == '\U{202F}' || c == '\U{205F}' || c == '\U{3000}'
  }

  /** `s.trimmingCharacters(in: .whitespaces).isEmpty`: every character is whitespace. */
  predicate IsBlank(s: string) {
    forall i :: 0 <= i < |s| ==> IsWhitespace(s[i])
  }

  /** `s` with every element equal to `x` removed (Swift's `removeAll(where: { $0 == x })`). */
  function RemoveAll<T(==)>(s: seq<T>, x: T): (r: seq<T>)
    ensures x !in r
    ensures forall i :: 0 <= i < |r| ==> r[i] in s
    ensures forall i :: 0 <= i < |s| && s[i] != x ==> s[i] in r
    ensures |r| <= |s|
    ensures x !in s ==> r == s
    ensures Distinct(s) ==> Distinct(r)
  {
    if s == [] then []
    else if s[0] == x then RemoveAll(s[1..], x)
    else
      var rest := RemoveAll(s[1..], x);
      assert Distinct(s) ==> s[0] !in s[1..];
      [s[0]] + rest
  }

  /** Removal works element by element: the elements kept from a concatenation are those
      kept from its first part followed by those kept from its second part, so the kept
      elements stay in order and keep their repetitions. */
  lemma {:induction false} RemoveAllAppend<T>(a: seq<T>, b: seq<T>, x: T)
    ensures RemoveAll(a + b, x) == RemoveAll(a, x) + RemoveAll(b, x)
  {
    if a == [] {
      assert a + b == b;
    } else {
      assert (a + b)[0] == a[0];
      assert (a + b)[1..] == a[1..] + b;
      RemoveAllAppend(a[1..], b, x);
    }
  }

  /** `parts.joined(separator: sep)`: the parts in order, with `sep` between neighbours. */
  function Join(parts: seq<string>, sep: string): string {
    if parts == [] then ""
    else if |parts| == 1 then parts[0]
    else parts[0] + sep + Join(parts[1..], sep)
  }

  /** Regrouping a concatenation of three sequences; stated apart so that the solver meets
      the step in a small context. */
  lemma ConcatAssociative<T>(a: seq<T>, b: seq<T>, c: seq<T>)
    ensures a + b + c == a + (b + c)
  {
  }

  /** True when no element of `s` occurs twice. */
  ghost predicate Distinct<T>(s: seq<T>) {
    forall i, j :: 0 <= i < j < |s| ==> s[i] != s[j]
  }

  /** Two sequences without repetitions and without a common element concatenate to one
      without repetitions. */
  lemma DistinctConcat<T>(a: seq<T>, b: seq<T>)
    requires Distinct(a) && Distinct(b)
    requires forall i :: 0 <= i < |a| ==> a[i] !in b
    ensures Distinct(a + b)
  {
    forall i, j | 0 <= i < j < |a + b|
      ensures (a + b)[i] != (a + b)[j]
    {
      if i < |a| && j >= |a| {
        assert (a + b)[j] == b[j - |a|];
      } else if i >= |a| {
        assert (a + b)[i] == b[i - |a|] && (a + b)[j] == b[j - |a|];
      }
    }
  }
}
