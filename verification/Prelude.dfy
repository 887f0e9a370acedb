/** What several modules share: optional and fallible results, and a few facts about sequences. */
module Prelude {
  datatype Option<+T> = None | Some(value: T)

  datatype Result<+T, +E> = Ok(value: T) | Err(error: E)

  /** The first place of `c` in `text`. */
  function FindChar(text: string, c: char): (at: Option<nat>)
    ensures at.Some? ==> at.value < |text| && text[at.value] == c && forall k | 0 <= k < at.value :: text[k] != c
    ensures at.None? ==> forall k | 0 <= k < |text| :: text[k] != c
  {
    if text == "" then None
    else if text[0] == c then Some(0)
    else match FindChar(text[1..], c)
      case None => None
      case Some(at) => Some(at + 1)
  }

  predicate HasSuffix(text: string, end: string) {
    |end| <= |text| && text[|text| - |end|..] == end
  }

  /** `part` stands in `text` at `at`. */
  predicate OccursAt(text: string, part: string, at: nat) {
    at + |part| <= |text| && text[at..at + |part|] == part
  }

  lemma Regroup<T>(a: seq<T>, b: seq<T>, c: seq<T>)
    ensures a + b + c == a + (b + c)
  {
  }

  lemma HeadAndRest<T>(s: seq<T>)
    requires s != []
    ensures s == [s[0]] + s[1..]
  {
  }

  // ----- parts with slashes between them -----

  function Joined(parts: seq<string>): string {
    if parts == [] then "" else if |parts| == 1 then parts[0] else parts[0] + "/" + Joined(parts[1..])
  }

  lemma {:induction false} JoinedTwo(a: seq<string>, b: seq<string>)
    requires a != [] && b != []
    ensures Joined(a + b) == Joined(a) + "/" + Joined(b)
    decreases |a|
  {
    var all := a + b;
    if |a| == 1 {
      assert all[1..] == b && all[0] == a[0];
    } else {
      JoinedTwo(a[1..], b);
      assert all[1..] == a[1..] + b && all[0] == a[0];
      Regroup(a[0] + "/", Joined(a[1..]), "/");
      Regroup(a[0] + "/", Joined(a[1..]) + "/", Joined(b));
    }
  }

  lemma JoinedLast(dir: seq<string>, name: string)
    requires dir != []
    ensures Joined(dir + [name]) == Joined(dir) + "/" + name
  {
    JoinedTwo(dir, [name]);
  }

  /** The path cut at its slashes. */
  function Segments(path: string): (segments: seq<string>)
    ensures segments != [] && forall i | 0 <= i < |segments| :: '/' !in segments[i]
    decreases |path|
  {
    match FindChar(path, '/')
    case None => [path]
    case Some(at) => [path[..at]] + Segments(path[at + 1..])
  }

  lemma {:induction false} JoinedSegments(path: string)
    ensures Joined(Segments(path)) == path
    decreases |path|
  {
    if FindChar(path, '/').Some? {
      var at := FindChar(path, '/').value;
      JoinedSegments(path[at + 1..]);
      JoinedTwo([path[..at]], Segments(path[at + 1..]));
      assert path == path[..at] + "/" + path[at + 1..];
    }
  }

  lemma {:induction false} SegmentsOfTwo(a: string, b: string)
    ensures Segments(a + "/" + b) == Segments(a) + Segments(b)
    decreases |a|
  {
    var path := a + "/" + b;
    match FindChar(a, '/')
    case None =>
      assert path[|a|] == '/' && forall k | 0 <= k < |a| :: path[k] == a[k];
      assert FindChar(path, '/') == Some(|a|) && path[..|a|] == a && path[|a| + 1..] == b;
    case Some(at) =>
      assert forall k | 0 <= k < |a| :: path[k] == a[k];
      assert FindChar(path, '/') == Some(at) && path[..at] == a[..at];
      assert path[at + 1..] == a[at + 1..] + "/" + b;
      SegmentsOfTwo(a[at + 1..], b);
      Regroup([a[..at]], Segments(a[at + 1..]), Segments(b));
  }

  // ----- the order of strings -----

  /** Strings compare by code points, which for UTF-8 is the order of their bytes. */
  predicate TextLess(a: string, b: string) {
    b != "" && (a == "" || a[0] < b[0] || (a[0] == b[0] && TextLess(a[1..], b[1..])))
  }

  /** The first place where two strings differ decides; a string comes before what it starts. */
  lemma {:induction false} TextLessMeans(a: string, b: string)
    ensures TextLess(a, b) <==>
            a < b || exists p | 0 <= p < |a| && p < |b| :: a[..p] == b[..p] && a[p] < b[p]
  {
    if a != "" && b != "" {
      var x, y := a[1..], b[1..];
      TextLessMeans(x, y);
      HeadAndRest(a);
      HeadAndRest(b);
      forall p | 0 < p < |a| && p < |b| && a[..p] == b[..p] ensures a[0] == b[0] {
        assert a[..p][0] == a[0] && b[..p][0] == b[0];
      }
      if a[0] == b[0] {
        assert a < b <==> x < y;
        forall p | 0 <= p < |x| && p < |y| ensures x[..p] == y[..p] <==> a[..p + 1] == b[..p + 1] {
          assert a[..p + 1] == [a[0]] + x[..p] && b[..p + 1] == [b[0]] + y[..p];
        }
        if p :| 0 <= p < |x| && p < |y| && x[..p] == y[..p] && x[p] < y[p] {
          assert a[..p + 1] == b[..p + 1] && a[p + 1] < b[p + 1];
        }
        if p :| 0 <= p < |a| && p < |b| && a[..p] == b[..p] && a[p] < b[p] {
          assert x[..p - 1] == y[..p - 1] && x[p - 1] < y[p - 1];
        }
      } else {
        assert a[..0] == b[..0];
      }
    }
  }

  lemma {:induction false} TextAsymmetric(a: string, b: string)
    ensures !(TextLess(a, b) && TextLess(b, a)) && !TextLess(a, a)
  {
    if a != "" && b != "" && a[0] == b[0] {
      TextAsymmetric(a[1..], b[1..]);
    }
    if a != "" {
      TextAsymmetric(a[1..], a[1..]);
    }
  }

  lemma {:induction false} TextTotal(a: string, b: string)
    ensures a == b || TextLess(a, b) || TextLess(b, a)
  {
    if a != "" && b != "" && a[0] == b[0] {
      TextTotal(a[1..], b[1..]);
      HeadAndRest(a);
      HeadAndRest(b);
    }
  }

  lemma {:induction false} TextTransitive(a: string, b: string, c: string)
    ensures TextLess(a, b) && TextLess(b, c) ==> TextLess(a, c)
  {
    if a != "" && b != "" && c != "" {
      TextTransitive(a[1..], b[1..], c[1..]);
    }
  }
}
