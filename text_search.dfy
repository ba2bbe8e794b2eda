/**
  searchWordBoundingBox: the boxes of the detected text elements whose text contains the
  search word, as a literal substring (Pattern.quote) ignoring case (Pattern.CASE_INSENSITIVE),
  normalised by the image size, in block, line, element order. Case folding is simplified to
  ASCII letters; the platform's ICU-backed matcher also folds non-ASCII letters.
 */
module TextSearch {
  import opened Geometry

  /** A recognised word with its pixel bounding box (com.google.android.gms.vision.text.Element). */
  datatype Element = Element(value: string, boundingBox: Rect)

  /** A line is its elements, a block its lines, in the order the detector reports them. */
  type Line = seq<Element>
  type TextBlock = seq<Line>

  // ---------------------------------------------------------------------------
  // Literal, ASCII-case-insensitive substring search
  // ---------------------------------------------------------------------------

  /** ASCII lower case; every other character is left as it is. */
  function AsciiLower(c: char): (r: char)
    ensures 'A' <= c <= 'Z' ==> 'a' <= r <= 'z' && r as int - c as int == 32
    ensures !('A' <= c <= 'Z') ==> r == c
  {
    if 'A' <= c <= 'Z' then (c as int + 32) as char else c
  }

  function LowerAll(s: string): (r: string)
    ensures |r| == |s| && forall i :: 0 <= i < |s| ==> r[i] == AsciiLower(s[i])
  {
    seq(|s|, i requires 0 <= i < |s| => AsciiLower(s[i]))
  }

  /** Two characters match when they are equal after ASCII lower-casing. */
  predicate SameIgnoringCase(a: char, b: char) {
    AsciiLower(a) == AsciiLower(b)
  }

  /** `word` matches `text` character by character from position `at`. */
  predicate MatchesAt(word: string, text: string, at: nat)
    requires at + |word| <= |text|
  {
    forall j :: 0 <= j < |word| ==> SameIgnoringCase(word[j], text[at + j])
  }

  /** The meaning of the search: some position of `text` starts a literal match of `word`. */
  ghost predicate Occurs(word: string, text: string) {
    exists at: nat :: at + |word| <= |text| && MatchesAt(word, text, at)
  }

  /** Matcher.find from position `from`: try each start position in turn. */
  function FindFrom(word: string, text: string, from: nat): (r: bool)
    requires from <= |text|
    ensures r <==> exists at: nat :: from <= at && at + |word| <= |text| && MatchesAt(word, text, at)
    decreases |text| - from
  {
    if from + |word| > |text| then false
    else if MatchesAt(word, text, from) then true
    else if from == |text| then false
    else FindFrom(word, text, from + 1)
  }

  /** Pattern.compile(Pattern.quote(word), CASE_INSENSITIVE).matcher(text).find(). */
  function ContainsIgnoringCase(text: string, word: string): (r: bool)
    ensures r <==> Occurs(word, text)
  {
    FindFrom(word, text, 0)
  }

  /** The empty word occurs everywhere. */
  lemma EmptyWordMatchesAll(text: string)
    ensures ContainsIgnoringCase(text, "")
  {
    assert MatchesAt("", text, 0);
  }

  /** Case does not matter on either side. */
  lemma CaseIsIgnored(text: string, word: string)
    ensures ContainsIgnoringCase(text, word) <==> ContainsIgnoringCase(LowerAll(text), LowerAll(word))
  {
    var lt, lw := LowerAll(text), LowerAll(word);
    forall at: nat | at + |word| <= |text|
      ensures MatchesAt(word, text, at) <==> MatchesAt(lw, lt, at)
    {
      forall j | 0 <= j < |word|
        ensures SameIgnoringCase(word[j], text[at + j]) <==> SameIgnoringCase(lw[j], lt[at + j])
      {
        LowerIdempotent(word[j]);
        LowerIdempotent(text[at + j]);
      }
    }
    if Occurs(word, text) {
      var at: nat :| at + |word| <= |text| && MatchesAt(word, text, at);
      assert MatchesAt(lw, lt, at);
    }
    if Occurs(lw, lt) {
      var at: nat :| at + |lw| <= |lt| && MatchesAt(lw, lt, at);
      assert MatchesAt(word, text, at);
    }
  }

  lemma LowerIdempotent(c: char)
    ensures AsciiLower(AsciiLower(c)) == AsciiLower(c)
  {
  }

  /** The search word is literal text: "a.b" does not match "axb", but matches "xA.Bx". */
  lemma DotIsLiteral()
    ensures !ContainsIgnoringCase("axb", "a.b")
    ensures ContainsIgnoringCase("xA.Bx", "a.b")
  {
    assert !MatchesAt("a.b", "axb", 0) by {
      assert !SameIgnoringCase("a.b"[1], "axb"[1]);
    }
    assert MatchesAt("a.b", "xA.Bx", 1) by {
      assert SameIgnoringCase("a.b"[0], "xA.Bx"[1]);
      assert SameIgnoringCase("a.b"[2], "xA.Bx"[3]);
    }
  }

  // ---------------------------------------------------------------------------
  // The element filter
  // ---------------------------------------------------------------------------

  /** What one element contributes: its normalised box when its text contains the word. */
  function ElementHit(word: string, e: Element, imageWidth: int, imageHeight: int): seq<RectF>
    requires imageWidth > 0 && imageHeight > 0
  {
    if ContainsIgnoringCase(e.value, word) then [Normalize(e.boundingBox, imageWidth, imageHeight)] else []
  }

  /** The boxes of the matching elements of a sequence of elements, in order. */
  function ElementBoxes(word: string, elements: seq<Element>, imageWidth: int, imageHeight: int): seq<RectF>
    requires imageWidth > 0 && imageHeight > 0
  {
    if elements == [] then []
    else ElementBoxes(word, elements[..|elements| - 1], imageWidth, imageHeight)
         + ElementHit(word, elements[|elements| - 1], imageWidth, imageHeight)
  }

  /** The boxes of the matching elements of a sequence of lines, line by line. */
  function LineBoxes(word: string, lines: seq<Line>, imageWidth: int, imageHeight: int): seq<RectF>
    requires imageWidth > 0 && imageHeight > 0
  {
    if lines == [] then []
    else LineBoxes(word, lines[..|lines| - 1], imageWidth, imageHeight)
         + ElementBoxes(word, lines[|lines| - 1], imageWidth, imageHeight)
  }

  /** The boxes of the matching elements of a sequence of blocks, block by block. */
  function BlockBoxes(word: string, blocks: seq<TextBlock>, imageWidth: int, imageHeight: int): seq<RectF>
    requires imageWidth > 0 && imageHeight > 0
  {
    if blocks == [] then []
    else BlockBoxes(word, blocks[..|blocks| - 1], imageWidth, imageHeight)
         + LineBoxes(word, blocks[|blocks| - 1], imageWidth, imageHeight)
  }

  /** All elements of some lines, in order. */
  function LineElements(lines: seq<Line>): seq<Element> {
    if lines == [] then [] else LineElements(lines[..|lines| - 1]) + lines[|lines| - 1]
  }

  /** All elements of some blocks, in block, line, element order. */
  function BlockElements(blocks: seq<TextBlock>): seq<Element> {
    if blocks == [] then [] else BlockElements(blocks[..|blocks| - 1]) + LineElements(blocks[|blocks| - 1])
  }

  /** The filter distributes over concatenation: order is kept and nothing is merged. */
  lemma {:induction false} ElementBoxesAppend(word: string, a: seq<Element>, b: seq<Element>, imageWidth: int, imageHeight: int)
    requires imageWidth > 0 && imageHeight > 0
    ensures ElementBoxes(word, a + b, imageWidth, imageHeight)
         == ElementBoxes(word, a, imageWidth, imageHeight) + ElementBoxes(word, b, imageWidth, imageHeight)
    decreases |b|
  {
    if b == [] {
      assert a + b == a;
    } else {
      var b' := b[..|b| - 1];
      assert (a + b)[..|a + b| - 1] == a + b';
      assert (a + b)[|a + b| - 1] == b[|b| - 1];
      ElementBoxesAppend(word, a, b', imageWidth, imageHeight);
    }
  }

  /** A single element contributes its box exactly when it matches. */
  lemma ElementBoxesSingleton(word: string, e: Element, imageWidth: int, imageHeight: int)
    requires imageWidth > 0 && imageHeight > 0
    ensures ElementBoxes(word, [e], imageWidth, imageHeight)
         == if ContainsIgnoringCase(e.value, word) then [Normalize(e.boundingBox, imageWidth, imageHeight)] else []
  {
    assert [e][..0] == [];
  }

  /** Line by line filtering is filtering of the concatenated lines. */
  lemma {:induction false} LineBoxesFlat(word: string, lines: seq<Line>, imageWidth: int, imageHeight: int)
    requires imageWidth > 0 && imageHeight > 0
    ensures LineBoxes(word, lines, imageWidth, imageHeight) == ElementBoxes(word, LineElements(lines), imageWidth, imageHeight)
    decreases |lines|
  {
    if lines != [] {
      LineBoxesFlat(word, lines[..|lines| - 1], imageWidth, imageHeight);
      ElementBoxesAppend(word, LineElements(lines[..|lines| - 1]), lines[|lines| - 1], imageWidth, imageHeight);
    }
  }

  /** The nested block, line, element scan is one filter over the elements in reading order. */
  lemma {:induction false} BlockBoxesFlat(word: string, blocks: seq<TextBlock>, imageWidth: int, imageHeight: int)
    requires imageWidth > 0 && imageHeight > 0
    ensures BlockBoxes(word, blocks, imageWidth, imageHeight) == ElementBoxes(word, BlockElements(blocks), imageWidth, imageHeight)
    decreases |blocks|
  {
    if blocks != [] {
      var last := blocks[|blocks| - 1];
      BlockBoxesFlat(word, blocks[..|blocks| - 1], imageWidth, imageHeight);
      LineBoxesFlat(word, last, imageWidth, imageHeight);
      ElementBoxesAppend(word, BlockElements(blocks[..|blocks| - 1]), LineElements(last), imageWidth, imageHeight);
    }
  }

  /** Every box of the result is the normalised box of some matching element. */
  lemma {:induction false} ElementBoxesSound(word: string, elements: seq<Element>, imageWidth: int, imageHeight: int, k: nat)
    requires imageWidth > 0 && imageHeight > 0
    requires k < |ElementBoxes(word, elements, imageWidth, imageHeight)|
    ensures exists i :: (0 <= i < |elements| && ContainsIgnoringCase(elements[i].value, word)
      && ElementBoxes(word, elements, imageWidth, imageHeight)[k] == Normalize(elements[i].boundingBox, imageWidth, imageHeight))
    decreases |elements|
  {
    var n := |elements|;
    var prefix := elements[..n - 1];
    var before := ElementBoxes(word, prefix, imageWidth, imageHeight);
    if k < |before| {
      ElementBoxesSound(word, prefix, imageWidth, imageHeight, k);
      var i :| 0 <= i < |prefix| && ContainsIgnoringCase(prefix[i].value, word)
        && before[k] == Normalize(prefix[i].boundingBox, imageWidth, imageHeight);
      assert elements[i] == prefix[i];
    } else {
      assert ElementBoxes(word, elements, imageWidth, imageHeight)[k] == Normalize(elements[n - 1].boundingBox, imageWidth, imageHeight);
    }
  }

  /** The normalised box of every matching element is in the result. */
  lemma {:induction false} ElementBoxesComplete(word: string, elements: seq<Element>, imageWidth: int, imageHeight: int, i: nat)
    requires imageWidth > 0 && imageHeight > 0
    requires i < |elements| && ContainsIgnoringCase(elements[i].value, word)
    ensures Normalize(elements[i].boundingBox, imageWidth, imageHeight) in ElementBoxes(word, elements, imageWidth, imageHeight)
    decreases |elements|
  {
    var n := |elements|;
    if i < n - 1 {
      ElementBoxesComplete(word, elements[..n - 1], imageWidth, imageHeight, i);
    }
  }

  /** Equal boxes of two matching elements both appear: duplicates are not removed. */
  lemma DuplicatesKept(word: string, e: Element, imageWidth: int, imageHeight: int)
    requires imageWidth > 0 && imageHeight > 0
    requires ContainsIgnoringCase(e.value, word)
    ensures |ElementBoxes(word, [e, e], imageWidth, imageHeight)| == 2
  {
    ElementBoxesSingleton(word, e, imageWidth, imageHeight);
    ElementBoxesAppend(word, [e], [e], imageWidth, imageHeight);
    assert [e] + [e] == [e, e];
  }

  lemma ElementBoxesStep(word: string, elements: seq<Element>, k: nat, imageWidth: int, imageHeight: int)
    requires imageWidth > 0 && imageHeight > 0 && k < |elements|
    ensures ElementBoxes(word, elements[..k + 1], imageWidth, imageHeight)
         == ElementBoxes(word, elements[..k], imageWidth, imageHeight) + ElementHit(word, elements[k], imageWidth, imageHeight)
  {
    assert elements[..k + 1][..k] == elements[..k];
  }

  lemma LineBoxesStep(word: string, lines: seq<Line>, j: nat, imageWidth: int, imageHeight: int)
    requires imageWidth > 0 && imageHeight > 0 && j < |lines|
    ensures LineBoxes(word, lines[..j + 1], imageWidth, imageHeight)
         == LineBoxes(word, lines[..j], imageWidth, imageHeight) + ElementBoxes(word, lines[j], imageWidth, imageHeight)
  {
    assert lines[..j + 1][..j] == lines[..j];
  }

  lemma BlockBoxesStep(word: string, blocks: seq<TextBlock>, i: nat, imageWidth: int, imageHeight: int)
    requires imageWidth > 0 && imageHeight > 0 && i < |blocks|
    ensures BlockBoxes(word, blocks[..i + 1], imageWidth, imageHeight)
         == BlockBoxes(word, blocks[..i], imageWidth, imageHeight) + LineBoxes(word, blocks[i], imageWidth, imageHeight)
  {
    assert blocks[..i + 1][..i] == blocks[..i];
  }

  /**
    searchWordBoundingBox over the detected blocks of an imageWidth x imageHeight image: three
    nested loops append the normalised box of every element whose text contains the word.
   */
  method SearchWordBoundingBox(searchWord: string, textBlocks: seq<TextBlock>, imageWidth: int, imageHeight: int)
    returns (boundingBoxes: seq<RectF>)
    requires imageWidth > 0 && imageHeight > 0
    ensures boundingBoxes == BlockBoxes(searchWord, textBlocks, imageWidth, imageHeight)
  {
    boundingBoxes := [];
    var i := 0;
    while i < |textBlocks|
      invariant 0 <= i <= |textBlocks|
      invariant boundingBoxes == BlockBoxes(searchWord, textBlocks[..i], imageWidth, imageHeight)
    {
      boundingBoxes := AppendBlockMatches(boundingBoxes, searchWord, textBlocks[i], imageWidth, imageHeight);
      BlockBoxesStep(searchWord, textBlocks, i, imageWidth, imageHeight);
      i := i + 1;
    }
    assert textBlocks[..i] == textBlocks;
  }

  /** The loop over the lines of one block, appending to the list being built. */
  method AppendBlockMatches(boundingBoxes: seq<RectF>, searchWord: string, lines: TextBlock, imageWidth: int, imageHeight: int)
    returns (extended: seq<RectF>)
    requires imageWidth > 0 && imageHeight > 0
    ensures extended == boundingBoxes + LineBoxes(searchWord, lines, imageWidth, imageHeight)
  {
    extended := boundingBoxes;
    var j := 0;
    while j < |lines|
      invariant 0 <= j <= |lines|
      invariant extended == boundingBoxes + LineBoxes(searchWord, lines[..j], imageWidth, imageHeight)
    {
      extended := AppendLineMatches(extended, searchWord, lines[j], imageWidth, imageHeight);
      LineBoxesStep(searchWord, lines, j, imageWidth, imageHeight);
      j := j + 1;
    }
    assert lines[..j] == lines;
  }

  /** The loop over the elements of one line, appending to the list being built. */
  method AppendLineMatches(boundingBoxes: seq<RectF>, searchWord: string, elements: Line, imageWidth: int, imageHeight: int)
    returns (extended: seq<RectF>)
    requires imageWidth > 0 && imageHeight > 0
    ensures extended == boundingBoxes + ElementBoxes(searchWord, elements, imageWidth, imageHeight)
  {
    extended := boundingBoxes;
    var k := 0;
    while k < |elements|
      invariant 0 <= k <= |elements|
      invariant extended == boundingBoxes + ElementBoxes(searchWord, elements[..k], imageWidth, imageHeight)
    {
      var element := elements[k];
      if ContainsIgnoringCase(element.value, searchWord) {
        extended := extended + [Normalize(element.boundingBox, imageWidth, imageHeight)];
      }
      ElementBoxesStep(searchWord, elements, k, imageWidth, imageHeight);
      k := k + 1;
    }
    assert elements[..k] == elements;
  }
}
