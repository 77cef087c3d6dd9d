/** Release versions: three canonical decimals joined by dots. */
module Versions {
  import opened Text
  import opened Decimal

  /** strings.Split on a dot. */
  function Split(s: string): (parts: seq<string>)
    ensures parts != []
  {
    if s == "" then [""]
    else
      var rest := Split(s[1..]);
      if s[0] == '.' then [""] + rest else [[s[0]] + rest[0]] + rest[1..]
  }

  function Join(parts: seq<string>): string
    requires parts != []
  {
    if |parts| == 1 then parts[0] else parts[0] + "." + Join(parts[1..])
  }

  predicate NoDot(s: string) {
    '.' !in s
  }

  lemma {:induction false} JoinSplit(s: string)
    ensures Join(Split(s)) == s
  {
    if s != "" {
      JoinSplit(s[1..]);
      var rest := Split(s[1..]);
      if s[0] == '.' {
        assert ([""] + rest)[1..] == rest;
        assert Join([""] + rest) == "" + "." + Join(rest);
        assert s == "." + s[1..];
      } else {
        var parts := [[s[0]] + rest[0]] + rest[1..];
        assert parts[1..] == rest[1..];
        assert Join(parts) == [s[0]] + Join(rest);
      }
    }
  }

  lemma {:induction false} SplitPlain(s: string)
    requires NoDot(s)
    ensures Split(s) == [s]
  {
    if s != "" {
      SplitPlain(s[1..]);
      assert [s[0]] + s[1..] == s;
    }
  }

  lemma {:induction false} SplitFirst(s: string, rest: string)
    requires NoDot(s)
    ensures Split(s + "." + rest) == [s] + Split(rest)
  {
    var whole := s + "." + rest;
    if s == "" {
      assert whole == "." + rest && whole[1..] == rest;
    } else {
      SplitFirst(s[1..], rest);
      assert whole[1..] == s[1..] + "." + rest;
      assert whole[0] == s[0];
      assert [s[0]] + s[1..] == s;
      assert ([s[1..]] + Split(rest))[1..] == Split(rest);
    }
  }

  /** One part: a number that renders back to the same text. */
  function ParsePart(part: string): Option<int> {
    var number := Atoi(part);
    if number.None? || number.value < 0 || Itoa(number.value) != part then None else number
  }

  function ParseVersion(version: string): (r: Option<seq<int>>)
    ensures r.Some? ==> |r.value| == 3
  {
    var parts := Split(version);
    if |parts| != 3 then None
    else
      var a, b, c := ParsePart(parts[0]), ParsePart(parts[1]), ParsePart(parts[2]);
      if a.None? || b.None? || c.None? then None else Some([a.value, b.value, c.value])
  }

  method Parse(version: string) returns (parsed: Option<seq<int>>)
    ensures parsed == ParseVersion(version)
  {
    hide Split, Atoi, Itoa;
    var parts := Split(version);
    if |parts| != 3 {
      return None;
    }
    var numbers: seq<int> := [];
    for i := 0 to 3
      invariant |numbers| == i
      invariant forall j | 0 <= j < i :: ParsePart(parts[j]) == Some(numbers[j])
    {
      var number := Atoi(parts[i]);
      if number.None? || number.value < 0 || Itoa(number.value) != parts[i] {
        return None;
      }
      numbers := numbers + [number.value];
    }
    assert numbers == [numbers[0], numbers[1], numbers[2]];
    parsed := Some(numbers);
  }

  function Render(v: seq<int>): string
    requires |v| == 3
  {
    Itoa(v[0]) + "." + Itoa(v[1]) + "." + Itoa(v[2])
  }

  lemma DigitsHaveNoDot(n: nat)
    ensures NoDot(Itoa(n))
  {
    var s := Itoa(n);
    forall i | 0 <= i < |s| ensures s[i] != '.' {
      assert IsDigit(s[i]);
    }
  }

  /** A version parses exactly when it is the rendering of three 64-bit numbers,
      so releases and their numbers correspond one to one. */
  lemma ParsesRendering(version: string, v: seq<int>)
    requires |v| == 3
    ensures ParseVersion(version) == Some(v) <==> version == Render(v) && forall i | 0 <= i < 3 :: 0 <= v[i] <= MAX_INT
  {
    hide Split, Atoi, Itoa, ParseVersion, Render;
    if version == Render(v) && forall i | 0 <= i < 3 :: 0 <= v[i] <= MAX_INT {
      ReadsRendering(v);
    }
    if ParseVersion(version) == Some(v) {
      PartsRender(version, v);
    }
  }

  lemma PartsRender(version: string, v: seq<int>)
    requires |v| == 3 && ParseVersion(version) == Some(v)
    ensures version == Render(v) && forall i | 0 <= i < 3 :: 0 <= v[i] <= MAX_INT
  {
    hide Split, Itoa;
    JoinSplit(version);
    var parts := Split(version);
    JoinThree(parts);
  }

  lemma JoinThree(parts: seq<string>)
    requires |parts| == 3
    ensures Join(parts) == parts[0] + "." + parts[1] + "." + parts[2]
  {
    assert parts[1..] == [parts[1], parts[2]] && parts[1..][1..] == [parts[2]];
    assert Join(parts[1..]) == parts[1] + "." + parts[2];
    assert Join(parts) == parts[0] + "." + (parts[1] + "." + parts[2]);
  }

  lemma ReadsRendering(v: seq<int>)
    requires |v| == 3 && forall i | 0 <= i < 3 :: 0 <= v[i] <= MAX_INT
    ensures ParseVersion(Render(v)) == Some(v)
  {
    hide Split, Itoa, Atoi;
    forall i | 0 <= i < 3 ensures Atoi(Itoa(v[i])) == Some(v[i]) && NoDot(Itoa(v[i])) {
      AtoiItoa(v[i]);
      DigitsHaveNoDot(v[i]);
    }
    var a, b, c := Itoa(v[0]), Itoa(v[1]), Itoa(v[2]);
    SplitThree(a, b, c);
    assert v == [v[0], v[1], v[2]];
  }

  lemma SplitThree(a: string, b: string, c: string)
    requires NoDot(a) && NoDot(b) && NoDot(c)
    ensures Split(a + "." + b + "." + c) == [a, b, c]
  {
    hide Split;
    assert a + "." + b + "." + c == a + "." + (b + "." + c);
    SplitFirst(a, b + "." + c);
    SplitFirst(b, c);
    SplitPlain(c);
  }

  /** slices.Compare, as "less than". */
  predicate Older(a: seq<int>, b: seq<int>)
    requires |a| == |b| == 3
  {
    a[0] < b[0] || (a[0] == b[0] && (a[1] < b[1] || (a[1] == b[1] && a[2] < b[2])))
  }

  /** The first number that differs decides, and two versions that differ are
      one older and one newer. */
  lemma OlderByFirstDifference(a: seq<int>, b: seq<int>)
    requires |a| == |b| == 3
    ensures Older(a, b) <==> exists i :: 0 <= i < 3 && a[..i] == b[..i] && a[i] < b[i]
    ensures Older(a, b) || Older(b, a) || a == b
    ensures !(Older(a, b) && Older(b, a)) && (a == b ==> !Older(a, b))
  {
    if Older(a, b) {
      var i := if a[0] < b[0] then 0 else if a[1] < b[1] then 1 else 2;
      assert a[..i] == b[..i] && a[i] < b[i];
    }
    forall i | 0 <= i < 3 && a[..i] == b[..i] && a[i] < b[i] ensures Older(a, b) {
      assert forall j | 0 <= j < i :: a[..i][j] == b[..i][j];
    }
    if a[0] == b[0] && a[1] == b[1] && a[2] == b[2] {
      assert a == b;
    }
  }
}
