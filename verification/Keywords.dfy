/** The prohibited-content check: a text is normalised by a chain of replacements, and searched for each normalised
    keyword in turn. Texts are ASCII, where stripping accents changes nothing. The list of keywords is a parameter. */
module Keywords {
  import opened Basics
  import opened Text

  function Replaced(s: string, from: char, to: char): (r: string)
    ensures |r| == |s| && forall i :: 0 <= i < |s| ==> r[i] == if s[i] == from then to else s[i]
  {
    seq(|s|, i requires 0 <= i < |s| => if s[i] == from then to else s[i])
  }

  predicate IsPlain(c: char) {
    'a' <= c <= 'z' || '0' <= c <= '9'
  }

  /** What the last replacement leaves: lower-case letters and digits. */
  function Plain(s: string): string {
    if |s| == 0 then "" else (if IsPlain(s[0]) then [s[0]] else "") + Plain(s[1..])
  }

  function Unnumber(s: string): string {
    Replaced(Replaced(Replaced(Replaced(Replaced(s, '0', 'o'), '1', 'i'), '3', 'e'), '4', 'a'), '5', 's')
  }

  function Unleet(s: string): string {
    Replaced(Replaced(Unnumber(s), '@', 'a'), '$', 's')
  }

  function Normalise(text: string): string {
    Plain(Unleet(ToLower(text)))
  }

  // ----- The chain, a character at a time -----

  /** What one character becomes: nothing, a letter or a digit. */
  function Image(c: char): string {
    var l := Lower(c);
    if l == '0' then "o" else if l == '1' then "i" else if l == '3' then "e" else if l == '4' || l == '@' then "a"
    else if l == '5' || l == '$' then "s" else if IsPlain(l) then [l] else ""
  }

  function Images(s: string): string {
    if |s| == 0 then "" else Image(s[0]) + Images(s[1..])
  }

  lemma {:induction false} PlainJoin(a: string, b: string)
    ensures Plain(a + b) == Plain(a) + Plain(b)
  {
    if |a| == 0 {
      assert a + b == b;
    } else {
      assert (a + b)[0] == a[0] && (a + b)[1..] == a[1..] + b;
      PlainJoin(a[1..], b);
      var head := if IsPlain(a[0]) then [a[0]] else "";
      assert head + (Plain(a[1..]) + Plain(b)) == (head + Plain(a[1..])) + Plain(b);
    }
  }

  function Unnumbered(c: char): char {
    if c == '0' then 'o' else if c == '1' then 'i' else if c == '3' then 'e' else if c == '4' then 'a'
    else if c == '5' then 's' else c
  }

  function Unleeted(c: char): char {
    if c == '@' then 'a' else if c == '$' then 's' else Unnumbered(c)
  }

  lemma UnnumberAt(s: string)
    ensures |Unnumber(s)| == |s| && forall i :: 0 <= i < |s| ==> Unnumber(s)[i] == Unnumbered(s[i])
  {
  }

  lemma UnleetAt(s: string)
    ensures |Unleet(s)| == |s| && forall i :: 0 <= i < |s| ==> Unleet(s)[i] == Unleeted(s[i])
  {
    UnnumberAt(s);
  }

  lemma ImageOf(c: char)
    ensures Plain([Unleeted(Lower(c))]) == Image(c)
  {
    assert [Unleeted(Lower(c))][1..] == "";
  }

  /** The replacements of a text are those of its first character and of the rest. */
  lemma ChainSplits(s: string)
    requires |s| > 0
    ensures Unleet(ToLower(s)) == [Unleeted(Lower(s[0]))] + Unleet(ToLower(s[1..]))
  {
    UnleetAt(ToLower(s));
    UnleetAt(ToLower(s[1..]));
  }

  /** The whole chain does to a text what it does to each of its characters. */
  lemma {:induction false} ChainIsImages(s: string)
    ensures Normalise(s) == Images(s)
  {
    if |s| > 0 {
      ChainIsImages(s[1..]);
      ChainSplits(s);
      PlainJoin([Unleeted(Lower(s[0]))], Unleet(ToLower(s[1..])));
      ImageOf(s[0]);
    }
  }

  lemma {:induction false} ImagesJoin(a: string, b: string)
    ensures Images(a + b) == Images(a) + Images(b)
  {
    if |a| == 0 {
      assert a + b == b;
    } else {
      assert (a + b)[1..] == a[1..] + b;
      ImagesJoin(a[1..], b);
    }
  }

  /** Normalising distributes over concatenation. */
  lemma NormaliseJoin(a: string, b: string)
    ensures Normalise(a + b) == Normalise(a) + Normalise(b)
  {
    ChainIsImages(a + b);
    ChainIsImages(a);
    ChainIsImages(b);
    ImagesJoin(a, b);
  }

  lemma {:induction false} ImagesTwice(s: string)
    ensures Images(Images(s)) == Images(s)
  {
    if |s| > 0 {
      ImagesTwice(s[1..]);
      ImagesJoin(Image(s[0]), Images(s[1..]));
      assert Images(Image(s[0])) == Image(s[0]);
    }
  }

  /** Normalising is idempotent. */
  lemma NormaliseTwice(s: string)
    ensures Normalise(Normalise(s)) == Normalise(s)
  {
    ChainIsImages(s);
    ChainIsImages(Normalise(s));
    ImagesTwice(s);
  }

  // ----- The search -----

  predicate OccursAt(text: string, word: string, i: nat) {
    i + |word| <= |text| && text[i..i + |word|] == word
  }

  predicate Includes(text: string, word: string) {
    exists i: nat :: i <= |text| && OccursAt(text, word, i)
  }

  /** The first keyword of the list that the normalised text includes, normalised. */
  function FirstMatch(text: string, keywords: seq<string>): (term: Option<string>)
    ensures term.Some? ==> exists k :: 0 <= k < |keywords| && term.value == keywords[k]
                                   && Includes(Normalise(text), Normalise(keywords[k]))
                                   && forall j :: 0 <= j < k ==> !Includes(Normalise(text), Normalise(keywords[j]))
    ensures term.None? ==> forall k :: 0 <= k < |keywords| ==> !Includes(Normalise(text), Normalise(keywords[k]))
  {
    FirstMatchFrom(text, keywords, 0)
  }

  function FirstMatchFrom(text: string, keywords: seq<string>, i: nat): (term: Option<string>)
    requires i <= |keywords|
    requires forall j :: 0 <= j < i ==> !Includes(Normalise(text), Normalise(keywords[j]))
    ensures term.Some? ==> exists k :: i <= k < |keywords| && term.value == keywords[k]
                                   && Includes(Normalise(text), Normalise(keywords[k]))
                                   && forall j :: 0 <= j < k ==> !Includes(Normalise(text), Normalise(keywords[j]))
    ensures term.None? ==> forall k :: 0 <= k < |keywords| ==> !Includes(Normalise(text), Normalise(keywords[k]))
    decreases |keywords| - i
  {
    if i == |keywords| then None
    else if Includes(Normalise(text), Normalise(keywords[i])) then Some(keywords[i])
    else FirstMatchFrom(text, keywords, i + 1)
  }

  predicate IsProhibited(text: string, keywords: seq<string>) {
    FirstMatch(text, keywords).Some?
  }

  /** Only the normal form matters. */
  lemma SameVerdict(s: string, t: string, keywords: seq<string>)
    requires Normalise(s) == Normalise(t)
    ensures FirstMatch(s, keywords) == FirstMatch(t, keywords)
  {
    SameFrom(s, t, keywords, 0);
  }

  lemma {:induction false} SameFrom(s: string, t: string, keywords: seq<string>, i: nat)
    requires Normalise(s) == Normalise(t) && i <= |keywords|
    requires forall j :: 0 <= j < i ==> !Includes(Normalise(s), Normalise(keywords[j]))
    ensures FirstMatchFrom(s, keywords, i) == FirstMatchFrom(t, keywords, i)
    decreases |keywords| - i
  {
    if i < |keywords| && !Includes(Normalise(s), Normalise(keywords[i])) {
      SameFrom(s, t, keywords, i + 1);
    }
  }

  lemma NormaliseAround(a: string, c: char, b: string)
    ensures Normalise(a + [c] + b) == Normalise(a) + Image(c) + Normalise(b)
  {
    ChainIsImages([c]);
    assert Images([c]) == Image(c);
    NormaliseJoin(a, [c]);
    NormaliseJoin(a + [c], b);
  }

  /** Exchanging one character anywhere for another with the same image, whether of the other case or in leet, changes
      nothing. */
  lemma SwapIsSeenThrough(a: string, c: char, d: char, b: string, keywords: seq<string>)
    requires Image(c) == Image(d)
    ensures FirstMatch(a + [c] + b, keywords) == FirstMatch(a + [d] + b, keywords)
  {
    NormaliseAround(a, c, b);
    NormaliseAround(a, d, b);
    SameVerdict(a + [c] + b, a + [d] + b, keywords);
  }

  /** Nor does putting in a character with none. */
  lemma PaddingIsSeenThrough(a: string, c: char, b: string, keywords: seq<string>)
    requires Image(c) == ""
    ensures FirstMatch(a + [c] + b, keywords) == FirstMatch(a + b, keywords)
  {
    NormaliseAround(a, c, b);
    NormaliseJoin(a, b);
    SameVerdict(a + [c] + b, a + b, keywords);
  }

  lemma OneCharacter(c: char)
    ensures Normalise([c]) == Image(c)
  {
    ChainIsImages([c]);
    assert [c][1..] == "";
  }

  /** Two characters whose images differ are told apart by a text and a keyword of one character. */
  lemma ToldApart(c: char, d: char)
    requires Image(c) != Image(d) && Image(c) != ""
    ensures FirstMatch("" + [c] + "", [[c]]) != FirstMatch("" + [d] + "", [[c]])
  {
    OneCharacter(c);
    OneCharacter(d);
    assert "" + [c] + "" == [c] && "" + [d] + "" == [d];
    assert OccursAt(Image(c), Image(c), 0);
    assert !Includes(Image(d), Image(c));
  }

  /** So two characters can be exchanged in every text, for every list of keywords, exactly when their images agree. */
  lemma ExchangeableIff(c: char, d: char)
    ensures Image(c) == Image(d) <==>
      forall a: string, b: string, keywords ::
        FirstMatch(a + [c] + b, keywords) == FirstMatch(a + [d] + b, keywords)
  {
    if Image(c) == Image(d) {
      forall a: string, b: string, keywords
        ensures FirstMatch(a + [c] + b, keywords) == FirstMatch(a + [d] + b, keywords)
      {
        SwapIsSeenThrough(a, c, d, b, keywords);
      }
    } else if Image(c) != "" {
      ToldApart(c, d);
    } else {
      ToldApart(d, c);
    }
  }

  lemma IncludedInside(before: string, text: string, rest: string, word: string)
    requires Includes(text, word)
    ensures Includes(before + text + rest, word)
  {
    var i: nat :| i <= |text| && OccursAt(text, word, i);
    var all, at := before + text + rest, |before| + i;
    assert all[at..at + |word|] == text[i..i + |word|];
    assert OccursAt(all, word, at);
  }

  /** A prohibited text stays prohibited whatever is written before and after it. */
  lemma MoreTextStaysProhibited(before: string, text: string, rest: string, keywords: seq<string>)
    requires IsProhibited(text, keywords)
    ensures IsProhibited(before + text + rest, keywords)
  {
    var k :| 0 <= k < |keywords| && Includes(Normalise(text), Normalise(keywords[k]));
    NormaliseJoin(before, text);
    NormaliseJoin(before + text, rest);
    IncludedInside(Normalise(before), Normalise(text), Normalise(rest), Normalise(keywords[k]));
  }
}
