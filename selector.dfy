/**
 * The dynamic-class resolver of scrape_1.js: the page's markup is seen through the values of its
 * `class="…"` attributes, in document order; a class pattern such as
 * `/class="([^"]*CardPc_titleText[^"]*)"/g` captures every value containing its fragment.
 */
module SelectorResolver {
  import opened Wrappers
  import opened Text
  import opened Seqs

  const HashtagFragment := "CardPc_titleText"
  const MusicFragment := "ItemCard_musicName"
  const AuthorFragment := "ItemCard_autherName"
  const GraphFragment := "ItemCard_echartWrap"

  /**
   * The regular expression's captures: the attribute values that contain `fragment`. Their markup
   * order is stated by `CapturesConcat`, `CapturesSnoc` and `FirstCaptureIsFirstMatch`.
   */
  function Captures(classAttrs: seq<string>, fragment: string): (caps: seq<string>)
    ensures |caps| <= |classAttrs|
    ensures forall c :: c in caps <==> c in classAttrs && Contains(c, fragment)
    decreases |classAttrs|
  {
    if classAttrs == [] then []
    else
      var rest := Captures(classAttrs[1..], fragment);
      assert forall c :: c in classAttrs <==> c == classAttrs[0] || c in classAttrs[1..];
      if Contains(classAttrs[0], fragment) then [classAttrs[0]] + rest else rest
  }

  /** Captures distribute over concatenated markup, so they keep the markup order. */
  lemma {:induction false} CapturesConcat(a: seq<string>, b: seq<string>, fragment: string)
    ensures Captures(a + b, fragment) == Captures(a, fragment) + Captures(b, fragment)
    decreases |a|
  {
    if a == [] {
      assert a + b == b;
    } else {
      assert (a + b)[0] == a[0] && (a + b)[1..] == a[1..] + b;
      CapturesConcat(a[1..], b, fragment);
    }
  }

  /** Scanning one more attribute value appends its capture, if it matches, after all earlier ones. */
  lemma CapturesSnoc(a: seq<string>, c: string, fragment: string)
    ensures Captures(a + [c], fragment) == Captures(a, fragment) + (if Contains(c, fragment) then [c] else [])
  {
    CapturesConcat(a, [c], fragment);
    assert Captures([c], fragment) == (if Contains(c, fragment) then [c] else []) by {
      assert [c][1..] == [];
    }
  }

  /** The first capture is the first attribute value, in markup order, that contains the fragment. */
  lemma FirstCaptureIsFirstMatch(classAttrs: seq<string>, fragment: string, i: nat)
    requires i < |classAttrs| && Contains(classAttrs[i], fragment)
    requires forall j :: 0 <= j < i ==> !Contains(classAttrs[j], fragment)
    ensures Captures(classAttrs, fragment) != [] && Captures(classAttrs, fragment)[0] == classAttrs[i]
  {
    var before, after := classAttrs[..i], classAttrs[i..];
    assert classAttrs == before + after;
    CapturesConcat(before, after, fragment);
    assert forall c :: c in before ==> !Contains(c, fragment);
    NoNamesIffNoMatch(before, fragment, Captures(before, fragment));
    assert after == [classAttrs[i]] + after[1..];
    CapturesConcat([classAttrs[i]], after[1..], fragment);
    assert [classAttrs[i]][1..] == [];
  }

  /**
   * `searchDynamicClassNames`: the distinct captured values. Every captured value appears once,
   * nothing else appears, and nothing matching yields the empty list rather than an error.
   */
  function SearchDynamicClassNames(classAttrs: seq<string>, fragment: string): (names: seq<string>)
    ensures forall i, j :: 0 <= i < j < |names| ==> names[i] != names[j]
    ensures forall c :: c in names <==> c in classAttrs && Contains(c, fragment)
    ensures names == [] <==> forall c :: c in classAttrs ==> !Contains(c, fragment)
  {
    var caps := Captures(classAttrs, fragment);
    var names := DedupBy(caps, Id);
    UniqueByIdIsDistinct(names);
    forall c ensures c in names <==> c in caps {
      HasKeyIdIsIn(names, c);
      HasKeyIdIsIn(caps, c);
    }
    NoNamesIffNoMatch(classAttrs, fragment, names);
    names
  }

  lemma NoNamesIffNoMatch(classAttrs: seq<string>, fragment: string, names: seq<string>)
    requires forall c :: c in names <==> c in classAttrs && Contains(c, fragment)
    ensures names == [] <==> forall c :: c in classAttrs ==> !Contains(c, fragment)
  {
    if names != [] {
      assert names[0] in names;
    }
  }

  /** The class names come out in the order in which the regular expression first matched them. */
  lemma ClassNamesInFirstMatchOrder(classAttrs: seq<string>, fragment: string)
    ensures var caps, names := Captures(classAttrs, fragment), SearchDynamicClassNames(classAttrs, fragment);
      && (forall i :: 0 <= i < |names| ==> HasKey(caps, Id, names[i]))
      && (forall i, j :: 0 <= i < j < |names| ==>
            FirstKeyIndex(caps, Id, names[i]) < FirstKeyIndex(caps, Id, names[j]))
  {
    var caps := Captures(classAttrs, fragment);
    var names := DedupBy(caps, Id);
    DedupByFirstOccurrences(caps, Id);
    forall i | 0 <= i < |names| ensures HasKey(caps, Id, names[i]) && Id(names[i]) == names[i] {
      assert names[i] in names;
      HasKeyIdIsIn(caps, names[i]);
    }
  }

  /** The name the caller builds its selector from, `classNames[0]`, is the first capture. */
  lemma FirstClassNameIsFirstCapture(classAttrs: seq<string>, fragment: string)
    requires Captures(classAttrs, fragment) != []
    ensures SearchDynamicClassNames(classAttrs, fragment) != []
    ensures SearchDynamicClassNames(classAttrs, fragment)[0] == Captures(classAttrs, fragment)[0]
  {
    var caps := Captures(classAttrs, fragment);
    assert caps == [caps[0]] + caps[1..];
    DedupByPrefix([caps[0]], caps[1..], Id);
    assert DedupBy([caps[0]], Id) == [caps[0]] by {
      assert ([caps[0]])[..0] == [];
    }
  }

  /**
   * `'.' + name.split(' ').join('.')`: a class selector that requires every space-separated
   * token of `name` (an AND of classes); each space becomes a '.', every other character stays.
   */
  function ClassSelector(name: string): (sel: string)
    ensures |sel| == |name| + 1 && sel[0] == '.'
    ensures forall k :: 0 <= k < |name| ==> sel[k + 1] == if name[k] == ' ' then '.' else name[k]
  {
    JoinSplitReplaces(name, ' ', '.');
    "." + Join(Split(name, ' '), '.')
  }

  lemma {:induction false} SplitReplaced(s: string)
    requires '.' !in s
    ensures Split(Replace(s, ' ', '.'), '.') == Split(s, ' ')
    decreases |s|
  {
    if s != [] {
      var t := Replace(s, ' ', '.');
      assert t[1..] == Replace(s[1..], ' ', '.');
      assert '.' !in s[1..] by { assert forall c :: c in s[1..] ==> c in s; }
      SplitReplaced(s[1..]);
    }
  }

  /**
   * For a class attribute with no '.' in it, the selector is '.' followed by exactly the
   * attribute's space-separated tokens: splitting the selector's body on '.' recovers them.
   */
  lemma SelectorTokens(name: string)
    requires '.' !in name
    ensures Split(ClassSelector(name)[1..], '.') == Split(name, ' ')
  {
    var sel := ClassSelector(name);
    assert sel[1..] == Replace(name, ' ', '.');
    SplitReplaced(name);
  }

  /** A class attribute whose spaces all sit between two class names: none leading, trailing or doubled. */
  predicate WellSpaced(name: string) {
    "" !in Split(name, ' ')
  }

  /**
   * A dot-free attribute that is not well spaced gives a selector with an empty class between two
   * dots or at its end, which `page.$$` rejects by throwing; a well-spaced one does not.
   */
  lemma EmptyClassInSelector(name: string)
    requires '.' !in name
    ensures !WellSpaced(name) <==> "" in Split(ClassSelector(name)[1..], '.')
  {
    SelectorTokens(name);
  }

  /** A doubled space leaves an empty class between two dots of the selector. */
  lemma DoubledSpaceScenario()
    ensures ClassSelector("a  b") == ".a..b" && !WellSpaced("a  b")
  {
    var name := "a  b";
    var sel := ClassSelector(name);
    assert name[0] == 'a' && name[1] == ' ' && name[2] == ' ' && name[3] == 'b';
    assert sel[1] == 'a' && sel[2] == '.' && sel[3] == '.' && sel[4] == 'b';
    assert sel == ".a..b";
    assert Split(name, ' ')[1] == "";
  }

  /** A leading space leaves an empty class before the first name. */
  lemma LeadingSpaceScenario()
    ensures ClassSelector(" a") == "..a" && !WellSpaced(" a")
  {
    var name := " a";
    var sel := ClassSelector(name);
    assert name[0] == ' ' && name[1] == 'a';
    assert sel[1] == '.' && sel[2] == 'a';
    assert sel == "..a";
    assert Split(name, ' ')[0] == "";
  }

  /**
   * The compound selector the main block resolves for one fragment, or None when the markup has
   * no matching class (the caller reloads and retries).
   */
  function ResolveSelector(classAttrs: seq<string>, fragment: string): (sel: Option<string>)
    ensures sel.None? <==> forall c :: c in classAttrs ==> !Contains(c, fragment)
    ensures sel.Some? ==> sel.value == ClassSelector(Captures(classAttrs, fragment)[0])
  {
    var names := SearchDynamicClassNames(classAttrs, fragment);
    if |names| > 0 then
      assert Captures(classAttrs, fragment) != [] by { assert names[0] in names; }
      FirstClassNameIsFirstCapture(classAttrs, fragment);
      Some(ClassSelector(names[0]))
    else None
  }

  /** The selector is built from the first attribute value in the markup that contains the fragment. */
  lemma ResolvesFirstMatch(classAttrs: seq<string>, fragment: string, i: nat)
    requires i < |classAttrs| && Contains(classAttrs[i], fragment)
    requires forall j :: 0 <= j < i ==> !Contains(classAttrs[j], fragment)
    ensures ResolveSelector(classAttrs, fragment) == Some(ClassSelector(classAttrs[i]))
  {
    FirstCaptureIsFirstMatch(classAttrs, fragment, i);
    assert classAttrs[i] in classAttrs;
  }

  /** Duplicate matches collapse: two identical attributes yield the class name once. */
  lemma DuplicateAttributeScenario()
    ensures SearchDynamicClassNames(["abc_titleText_x1", "abc_titleText_x1"], "titleText") == ["abc_titleText_x1"]
  {
    var a := "abc_titleText_x1";
    assert OccursAt(a, "titleText", 4);
    var names := SearchDynamicClassNames([a, a], "titleText");
    assert a in names;
    assert forall c :: c in names ==> c == a;
  }
}
