/** The string operations the services rely on, on sequences of characters. */
module Text {
  import opened Prelude

  const CR := '\r'
  const LF := '\n'

  /** The characters `str.strip` removes. */
  predicate IsSpace(c: char) {
    || '\t' <= c <= '\r'
    || '\U{1C}' <= c <= ' '
    || c in {'\U{85}', '\U{A0}', '\U{1680}', '\U{2028}', '\U{2029}', '\U{202F}', '\U{205F}', '\U{3000}'}
    || '\U{2000}' <= c <= '\U{200A}'
  }

  function TrimLeft(s: string): (r: string)
    ensures r != [] ==> !IsSpace(r[0])
    ensures |r| <= |s|
  {
    if s != [] && IsSpace(s[0]) then TrimLeft(s[1..]) else s
  }

  function TrimRight(s: string): (r: string)
    ensures r != [] ==> !IsSpace(Last(r))
    ensures r <= s
  {
    if s != [] && IsSpace(Last(s)) then TrimRight(s[..|s| - 1]) else s
  }

  /** `str.strip`. */
  function Strip(s: string): string {
    TrimRight(TrimLeft(s))
  }

  /** No white space at either end. */
  predicate Trimmed(s: string) {
    s == [] || (!IsSpace(s[0]) && !IsSpace(Last(s)))
  }

  /** Stripping trims, and leaves exactly the trimmed texts alone. */
  lemma StripTrims(s: string)
    ensures Trimmed(Strip(s))
    ensures Strip(s) == s <==> Trimmed(s)
  {
    var l := TrimLeft(s);
    if Strip(s) != [] {
      assert Strip(s)[0] == l[0];
    }
  }

  ghost predicate AllSpace(s: string) {
    forall i :: 0 <= i < |s| ==> IsSpace(s[i])
  }

  lemma {:induction false} TrimLeftDrops(s: string) returns (front: string)
    ensures AllSpace(front) && s == front + TrimLeft(s)
  {
    front := [];
    if s != [] && IsSpace(s[0]) {
      var rest := TrimLeftDrops(s[1..]);
      front := [s[0]] + rest;
    }
  }

  lemma {:induction false} TrimRightDrops(s: string)
    ensures AllSpace(s[|TrimRight(s)|..])
  {
    if s != [] && IsSpace(Last(s)) {
      TrimRightDrops(s[..|s| - 1]);
    }
  }

  /** Stripping takes white space off both ends and nothing else. */
  lemma StripDropsSpace(s: string) returns (front: string, back: string)
    ensures AllSpace(front) && AllSpace(back) && s == front + Strip(s) + back
  {
    front := TrimLeftDrops(s);
    var middle := TrimLeft(s);
    TrimRightDrops(middle);
    back := middle[|Strip(s)|..];
  }

  predicate HasAt(s: string, pattern: string, i: nat) {
    i + |pattern| <= |s| && s[i..i + |pattern|] == pattern
  }

  /** `pattern in s`. */
  predicate Contains(s: string, pattern: string) {
    exists i :: 0 <= i <= |s| && HasAt(s, pattern, i)
  }

  /** `s.find(pattern, start)`: the first occurrence at or after `start`. */
  function Find(s: string, pattern: string, start: nat): (r: Option<nat>)
    requires start <= |s|
    ensures r.None? <==> forall i :: start <= i <= |s| ==> !HasAt(s, pattern, i)
    ensures r.Some? ==> start <= r.value <= |s| && HasAt(s, pattern, r.value)
    ensures r.Some? ==> forall i :: start <= i < r.value ==> !HasAt(s, pattern, i)
    decreases |s| - start
  {
    if HasAt(s, pattern, start) then Some(start)
    else if start == |s| then None
    else Find(s, pattern, start + 1)
  }

  lemma HasAtMiddle(prefix: string, head: string, tail: string, pattern: string, i: nat)
    requires i + |pattern| <= |head|
    ensures HasAt(head, pattern, i) <==> HasAt(prefix + head + tail, pattern, |prefix| + i)
  {
    assert (prefix + head + tail)[|prefix| + i..|prefix| + i + |pattern|] == head[i..i + |pattern|];
  }

  lemma FindIs(s: string, pattern: string, start: nat, at: nat)
    requires start <= at <= |s| && HasAt(s, pattern, at)
    requires forall i :: start <= i < at ==> !HasAt(s, pattern, i)
    ensures Find(s, pattern, start) == Some(at)
  {
  }

  lemma NoneBefore(prefix: string, head: string, tail: string, pattern: string, found: nat)
    requires found + |pattern| <= |head| && Find(head, pattern, 0) == Some(found)
    ensures forall i :: |prefix| <= i < |prefix| + found ==> !HasAt(prefix + head + tail, pattern, i)
  {
    forall i | |prefix| <= i < |prefix| + found
      ensures !HasAt(prefix + head + tail, pattern, i)
    {
      HasAtMiddle(prefix, head, tail, pattern, i - |prefix|);
    }
  }

  lemma FoundInMiddle(prefix: string, head: string, tail: string, pattern: string, found: nat)
    requires found + |pattern| <= |head| && Find(head, pattern, 0) == Some(found)
    ensures Find(prefix + head + tail, pattern, |prefix|) == Some(|prefix| + found)
  {
    NoneBefore(prefix, head, tail, pattern, found);
    HasAtMiddle(prefix, head, tail, pattern, found);
    FindIs(prefix + head + tail, pattern, |prefix|, |prefix| + found);
  }

  lemma FoundBy(s: string, pattern: string, at: nat) returns (found: nat)
    requires at <= |s| && HasAt(s, pattern, at)
    ensures found <= at && Find(s, pattern, 0) == Some(found)
  {
    found := Find(s, pattern, 0).value;
  }

  /** Searching from the end of a prefix finds what searching the middle finds: as long as the pattern ends the
    * middle, what follows does not matter. */
  lemma FindBetween(prefix: string, head: string, tail: string, pattern: string, end: nat) returns (found: nat)
    requires end + |pattern| == |head| && HasAt(head, pattern, end)
    ensures found <= end && Find(head, pattern, 0) == Some(found)
    ensures Find(prefix + head + tail, pattern, |prefix|) == Some(|prefix| + found)
  {
    found := FoundBy(head, pattern, end);
    FoundInMiddle(prefix, head, tail, pattern, found);
  }

  // ---------------------------------------------------------------- line ends

  /** `s.replace("\r\n", "\n")`: one pass from the left. */
  function ReplaceCrLf(s: string): (r: string)
    ensures |r| <= |s|
  {
    if |s| >= 2 && s[0] == CR && s[1] == LF then [LF] + ReplaceCrLf(s[2..])
    else if s != [] then [s[0]] + ReplaceCrLf(s[1..])
    else []
  }

  predicate CrLfAt(s: string, i: nat) {
    i + 1 < |s| && s[i] == CR && s[i + 1] == LF
  }

  ghost predicate HasCrLf(s: string) {
    exists i :: CrLfAt(s, i)
  }

  predicate CrCrLfAt(s: string, i: nat) {
    i + 2 < |s| && s[i] == CR && CrLfAt(s, i + 1)
  }

  ghost predicate HasCrCrLf(s: string) {
    exists i :: CrCrLfAt(s, i)
  }

  /** The pass changes nothing exactly when there is nothing to replace. */
  lemma {:induction false} ReplaceFixpointIff(s: string)
    ensures ReplaceCrLf(s) == s <==> !HasCrLf(s)
    ensures HasCrLf(s) ==> |ReplaceCrLf(s)| < |s|
  {
    if CrLfAt(s, 0) {
      assert |ReplaceCrLf(s)| < |s|;
    } else if s != [] {
      ReplaceFixpointIff(s[1..]);
      if i: nat :| CrLfAt(s, i) {
        assert CrLfAt(s[1..], i - 1);
      }
      if i: nat :| CrLfAt(s[1..], i) {
        assert CrLfAt(s, i + 1);
      }
    }
  }

  /** One pass leaves a CR LF behind exactly on texts that contain CR CR LF. */
  lemma {:induction false} ReplaceLeavesCrLfIff(s: string)
    ensures HasCrLf(ReplaceCrLf(s)) <==> HasCrCrLf(s)
  {
    var r := ReplaceCrLf(s);
    if CrLfAt(s, 0) {
      var rest := s[2..];
      ReplaceLeavesCrLfIff(rest);
      assert r == [LF] + ReplaceCrLf(rest);
      if i: nat :| CrLfAt(r, i) {
        assert CrLfAt(ReplaceCrLf(rest), i - 1);
        var k: nat :| CrCrLfAt(rest, k);
        assert CrCrLfAt(s, k + 2);
      }
      if k: nat :| CrCrLfAt(s, k) {
        assert CrCrLfAt(rest, k - 2);
        var i: nat :| CrLfAt(ReplaceCrLf(rest), i);
        assert CrLfAt(r, i + 1);
      }
    } else if s != [] {
      var rest := s[1..];
      ReplaceLeavesCrLfIff(rest);
      assert r == [s[0]] + ReplaceCrLf(rest);
      if i: nat :| CrLfAt(r, i) {
        if i == 0 {
          assert CrLfAt(rest, 0);
          assert CrCrLfAt(s, 0);
        } else {
          assert CrLfAt(ReplaceCrLf(rest), i - 1);
          var k: nat :| CrCrLfAt(rest, k);
          assert CrCrLfAt(s, k + 1);
        }
      }
      if k: nat :| CrCrLfAt(s, k) {
        if k == 0 {
          assert CrLfAt(rest, 0);
          assert CrLfAt(r, 0);
        } else {
          assert CrCrLfAt(rest, k - 1);
          var i: nat :| CrLfAt(ReplaceCrLf(rest), i);
          assert CrLfAt(r, i + 1);
        }
      }
    }
  }

  lemma {:induction false} ReplaceConcat(a: string, t: string)
    requires t != [] && t[0] == CR
    ensures ReplaceCrLf(a + t) == ReplaceCrLf(a) + ReplaceCrLf(t)
  {
    if a == [] {
      assert a + t == t;
    } else {
      var n := if CrLfAt(a, 0) then 2 else 1;
      assert (a + t)[n..] == a[n..] + t;
      assert CrLfAt(a + t, 0) == CrLfAt(a, 0);
      ReplaceConcat(a[n..], t);
    }
  }

  /** Every CR LF becomes one LF, whatever is around it. With the fixpoint above this says what the pass is. */
  lemma ReplaceSplits(a: string, b: string)
    ensures ReplaceCrLf(a + [CR, LF] + b) == ReplaceCrLf(a) + [LF] + ReplaceCrLf(b)
  {
    var t := [CR, LF] + b;
    assert t[2..] == b && a + [CR, LF] + b == a + t;
    ReplaceConcat(a, t);
  }

  /** `body.replace("\r\n", "\n").strip()`. */
  function Normalise(s: string): string {
    Strip(ReplaceCrLf(s))
  }

  /** Normalising leaves exactly the trimmed texts without CR LF alone. */
  lemma NormaliseFixpointIff(s: string)
    ensures Normalise(s) == s <==> Trimmed(s) && !HasCrLf(s)
  {
    ReplaceFixpointIff(s);
    StripTrims(ReplaceCrLf(s));
    StripTrims(s);
    if HasCrLf(s) {
      assert |Normalise(s)| <= |ReplaceCrLf(s)| < |s|;
    }
  }

  // ---------------------------------------------------------------- case

  function LowerChar(c: char): char {
    if 'A' <= c <= 'Z' then c - 'A' + 'a' else c
  }

  /** `str.lower`, on ASCII letters. */
  function Lower(s: string): string {
    seq(|s|, i requires 0 <= i < |s| => LowerChar(s[i]))
  }

  /** Lowering leaves exactly the texts without capitals alone, and takes the capitals to the small letters. */
  lemma LowerFixpointIff(s: string)
    ensures |Lower(s)| == |s| && (Lower(s) == s <==> forall i :: 0 <= i < |s| ==> !('A' <= s[i] <= 'Z'))
    ensures forall i :: 0 <= i < |s| && !('A' <= s[i] <= 'Z') ==> Lower(s)[i] == s[i]
    ensures Lower("ABCDEFGHIJKLMNOPQRSTUVWXYZ") == "abcdefghijklmnopqrstuvwxyz"
  {
    assert forall i :: 0 <= i < |s| ==> Lower(s)[i] == LowerChar(s[i]);
  }

  /** `language.strip().lower()` is idempotent. */
  lemma LanguageFixpoint(s: string)
    ensures Lower(Strip(Lower(Strip(s)))) == Lower(Strip(s))
  {
    var l := Lower(Strip(s));
    StripTrims(s);
    if l != [] {
      assert l[0] == LowerChar(Strip(s)[0]) && Last(l) == LowerChar(Last(Strip(s)));
      assert Trimmed(l);
    }
    StripTrims(l);
    assert Lower(l) == l;
  }

  /** `a < b` on texts. */
  predicate Less(a: string, b: string) {
    if b == "" then false
    else if a == "" then true
    else a[0] < b[0] || (a[0] == b[0] && Less(a[1..], b[1..]))
  }

  /** `Less` is the strict part of a total order. */
  lemma LessTrichotomy(a: string, b: string)
    ensures Less(a, b) || a == b || Less(b, a)
    ensures !(Less(a, b) && Less(b, a)) && !Less(a, a)
  {
    if a != [] && b != [] && a[0] == b[0] {
      LessTrichotomy(a[1..], b[1..]);
      assert a == [a[0]] + a[1..] && b == [b[0]] + b[1..];
    }
    if a != [] {
      LessTrichotomy(a[1..], a[1..]);
    }
  }

  lemma {:induction false} LessTransitive(a: string, b: string, c: string)
    requires Less(a, b) && Less(b, c)
    ensures Less(a, c)
  {
    if a != "" && a[0] == b[0] == c[0] {
      LessTransitive(a[1..], b[1..], c[1..]);
    }
  }
}
