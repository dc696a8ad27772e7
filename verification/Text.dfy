// The Python string operations that the naming rules rest on, and one on sequences.
module Text {

  datatype Option<+T> = None | Some(value: T)

  // The sequence without its element at one position.
  function Without<T>(s: seq<T>, at: nat): seq<T>
    requires at < |s|
  {
    s[..at] + s[at + 1..]
  }

  predicate StartsWith(s: string, prefix: string) { prefix <= s }

  // str.removeprefix
  function RemovePrefix(s: string, prefix: string): string {
    if prefix <= s then s[|prefix|..] else s
  }

  // str.isspace, which decides what a bare str.strip() drops.
  predicate IsSpace(c: char) {
    || '\t' <= c <= '\r' || '\U{1c}' <= c <= ' ' || c == '\U{85}' || c == '\U{a0}'
    || c == '\U{1680}' || '\U{2000}' <= c <= '\U{200a}' || c == '\U{2028}' || c == '\U{2029}'
    || c == '\U{202f}' || c == '\U{205f}' || c == '\U{3000}'
  }

  function StripLeft(s: string, drop: char -> bool): string {
    if s != [] && drop(s[0]) then StripLeft(s[1..], drop) else s
  }

  function StripRight(s: string, drop: char -> bool): string {
    if s != [] && drop(s[|s| - 1]) then StripRight(s[..|s| - 1], drop) else s
  }

  // str.strip
  function Strip(s: string, drop: char -> bool): string {
    StripRight(StripLeft(s, drop), drop)
  }

  // " ".join(s.split()): the words of a text, one blank between them.
  function Squeeze(s: string): string
    decreases |s|, 0
  {
    if s == [] then [] else if IsSpace(s[0]) then Squeeze(s[1..]) else [s[0]] + SqueezeOn(s[1..])
  }

  // The same after the first character of a word.
  function SqueezeOn(s: string): string
    decreases |s|, 1
  {
    if s == [] then []
    else if IsSpace(s[0]) then (var rest := Squeeze(s); if rest == [] then [] else " " + rest)
    else [s[0]] + SqueezeOn(s[1..])
  }

  // str.split on one character
  function Split(s: string, sep: char): (parts: seq<string>)
    ensures parts != []
  {
    if s == [] then [""]
    else
      var rest := Split(s[1..], sep);
      if s[0] == sep then [""] + rest else [[s[0]] + rest[0]] + rest[1..]
  }

  // str.partition on one character: what precedes the first separator, whether there is one,
  // and what follows it.
  function Partition(s: string, sep: char): (string, bool, string) {
    if s == [] then ("", false, "")
    else if s[0] == sep then ("", true, s[1..])
    else
      var (head, found, tail) := Partition(s[1..], sep);
      ([s[0]] + head, found, tail)
  }

  // The last piece of one list runs into the first piece of the next.
  function Glue(pa: seq<string>, pb: seq<string>): (glued: seq<string>)
    requires pa != [] && pb != []
    ensures glued != []
  {
    pa[..|pa| - 1] + [pa[|pa| - 1] + pb[0]] + pb[1..]
  }

  function PrependChar(c: char, sep: char, pieces: seq<string>): (r: seq<string>)
    requires pieces != []
    ensures r != []
  {
    if c == sep then [""] + pieces else [[c] + pieces[0]] + pieces[1..]
  }

  lemma {:induction false} SplitConcat(a: string, b: string, sep: char)
    ensures Split(a + b, sep) == Glue(Split(a, sep), Split(b, sep))
  {
    if a == [] {
      assert a + b == b;
      var pb := Split(b, sep);
      assert "" + pb[0] == pb[0];
      assert Glue([""], pb) == pb;
    } else {
      SplitConcat(a[1..], b, sep);
      var s := a + b;
      assert s[1..] == a[1..] + b;
      assert Split(s, sep) == PrependChar(a[0], sep, Split(s[1..], sep));
      assert Split(a, sep) == PrependChar(a[0], sep, Split(a[1..], sep));
      GluePrepend(a[0], sep, Split(a[1..], sep), Split(b, sep));
    }
  }

  lemma GluePrepend(c: char, sep: char, pa: seq<string>, pb: seq<string>)
    requires pa != [] && pb != []
    ensures PrependChar(c, sep, Glue(pa, pb)) == Glue(PrependChar(c, sep, pa), pb)
  {
    var left, right := PrependChar(c, sep, Glue(pa, pb)), Glue(PrependChar(c, sep, pa), pb);
    assert |left| == |right|;
    assert [c] + (pa[0] + pb[0]) == ([c] + pa[0]) + pb[0];
    forall k | 0 <= k < |left| ensures left[k] == right[k] { }
  }

  lemma {:induction false} SplitWithoutSeparator(s: string, sep: char)
    requires sep !in s
    ensures Split(s, sep) == [s]
  {
    if s != [] {
      SplitWithoutSeparator(s[1..], sep);
      assert s == [s[0]] + s[1..];
      assert [[s[0]] + s[1..]] + [] == [s];
    }
  }

  lemma {:induction false} PartitionConcat(a: string, b: string, sep: char)
    ensures Partition(a + [sep] + b, sep) == (a, true, b) <==> sep !in a
  {
    var s := a + [sep] + b;
    if a == [] {
      assert s[1..] == b;
    } else {
      PartitionConcat(a[1..], b, sep);
      assert s[1..] == a[1..] + [sep] + b;
      assert a == [a[0]] + a[1..];
      if a[0] != sep && sep in a[1..] {
        var (head, found, tail) := Partition(s[1..], sep);
        assert Partition(s, sep) == ([s[0]] + head, found, tail);
        if [s[0]] + head == a {
          assert head == ([s[0]] + head)[1..];
        }
      }
    }
  }

  // Every character of a stripped text comes from the text.
  lemma {:induction false} StripKeeps(s: string, drop: char -> bool, p: char -> bool)
    requires forall c | c in s :: p(c)
    ensures forall c | c in Strip(s, drop) :: p(c)
    ensures |Strip(s, drop)| <= |s|
    ensures Strip(s, drop) != "" ==> !drop(Strip(s, drop)[0])
  {
    StripLeftKeeps(s, drop, p);
    StripRightKeeps(StripLeft(s, drop), drop, p);
  }

  lemma {:induction false} StripLeftKeeps(s: string, drop: char -> bool, p: char -> bool)
    requires forall c | c in s :: p(c)
    ensures forall c | c in StripLeft(s, drop) :: p(c)
    ensures |StripLeft(s, drop)| <= |s|
    ensures StripLeft(s, drop) != "" ==> !drop(StripLeft(s, drop)[0])
  {
    if s != [] && drop(s[0]) { StripLeftKeeps(s[1..], drop, p); }
  }

  lemma {:induction false} StripRightKeeps(s: string, drop: char -> bool, p: char -> bool)
    requires forall c | c in s :: p(c)
    ensures forall c | c in StripRight(s, drop) :: p(c)
    ensures StripRight(s, drop) <= s
    ensures StripRight(s, drop) != "" ==> !drop(StripRight(s, drop)[|StripRight(s, drop)| - 1])
  {
    if s != [] && drop(s[|s| - 1]) { StripRightKeeps(s[..|s| - 1], drop, p); }
  }

  // A text is its own strip exactly when neither end is droppable.
  lemma StripFixed(s: string, drop: char -> bool)
    ensures Strip(s, drop) == s <==> s == "" || (!drop(s[0]) && !drop(s[|s| - 1]))
  {
    if s != [] {
      StripKeeps(s, drop, c => true);
      StripRightKeeps(StripLeft(s, drop), drop, c => true);
      StripLeftKeeps(s, drop, c => true);
      if drop(s[0]) {
        StripLeftKeeps(s[1..], drop, c => true);
      }
    }
  }

  // ---- squeezing ----

  lemma {:induction false} SqueezeWord(word: string)
    requires forall c | c in word :: !IsSpace(c)
    ensures Squeeze(word) == word
  {
    if word != [] {
      SqueezeOnWord(word[1..]);
    }
  }

  lemma {:induction false} SqueezeOnWord(word: string)
    requires forall c | c in word :: !IsSpace(c)
    ensures SqueezeOn(word) == word
  {
    if word != [] {
      SqueezeOnWord(word[1..]);
    }
  }

  function Spaced(a: string, b: string): string {
    if a == "" then b else if b == "" then a else a + " " + b
  }

  lemma {:induction false} SqueezeGap(gap: string, b: string)
    requires forall c | c in gap :: IsSpace(c)
    ensures Squeeze(gap + b) == Squeeze(b)
  {
    if gap == [] {
      assert gap + b == b;
    } else {
      assert (gap + b)[1..] == gap[1..] + b && (gap + b)[0] == gap[0];
      SqueezeGap(gap[1..], b);
    }
  }

  // Any blanks between two texts leave one blank between their words, if both have any.
  lemma {:induction false} SqueezeApart(a: string, gap: string, b: string)
    requires gap != "" && forall c | c in gap :: IsSpace(c)
    ensures Squeeze(a + gap + b) == Spaced(Squeeze(a), Squeeze(b))
    decreases |a|, 0
  {
    var s := a + gap + b;
    if a == [] {
      assert s == gap + b;
      SqueezeGap(gap, b);
    } else {
      assert s[1..] == a[1..] + gap + b && s[0] == a[0];
      if IsSpace(a[0]) {
        SqueezeApart(a[1..], gap, b);
      } else {
        SqueezeOnApart(a[1..], gap, b);
      }
    }
  }

  lemma {:induction false} SqueezeOnApart(a: string, gap: string, b: string)
    requires gap != "" && forall c | c in gap :: IsSpace(c)
    ensures SqueezeOn(a + gap + b) == SqueezeOn(a) + if Squeeze(b) == "" then "" else " " + Squeeze(b)
    decreases |a|, 1
  {
    var s := a + gap + b;
    if a == [] {
      assert s == gap + b;
      SqueezeGap(gap, b);
    } else {
      assert s[1..] == a[1..] + gap + b && s[0] == a[0];
      if IsSpace(a[0]) {
        SqueezeApart(a, gap, b);
      } else {
        SqueezeOnApart(a[1..], gap, b);
      }
    }
  }
}
