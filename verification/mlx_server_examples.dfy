/** A worked reply for the sidecar's tag parsing: the fallback reading
    of a reply that holds no JSON array. */
module MlxServerExamples {
  import opened Wrappers
  import opened Text
  import opened Json
  import opened MlxServer

  /** The pieces of the example reply `a, 'b'` / `c`, newline treated as a comma. */
  lemma ExamplePieces()
    ensures Split(ReplaceChar(StripChars("a, 'b'\nc", {'[', ']'}), '\n', ','), ',') == ["a", " 'b'", "c"]
  {
    var u, v := "a, 'b'", "c";
    assert "a, 'b'\nc" == u + ['\n'] + v;
    StripByKeeps(u + ['\n'] + v, InSet({'[', ']'}));
    ReplaceCharOnce(u, v, '\n', ',');
    var rest := " 'b'" + [','] + v;
    assert u + [','] + v == "a" + [','] + rest;
    SplitCons("a", ',', rest);
    SplitCons(" 'b'", ',', v);
    SplitWithoutSeparator(v, ',');
    var tail := Split(rest, ',');
    assert tail == [" 'b'", "c"];
    assert ["a"] + tail == ["a", " 'b'", "c"];
  }

  /** Whitespace, then quotes, come off a fallback piece. */
  lemma ExampleQuotedPiece()
    ensures CleanPiece(" 'b'") == "b"
  {
    assert PyStrip(" 'b'") == "'b'" by {
      assert StripStartBy(" 'b'", IsPySpace) == StripStartBy("'b'", IsPySpace);
      StripByKeeps("'b'", IsPySpace);
    }
    assert StripChars("'b'", {'"', '\''}) == "b" by {
      assert StripStartBy("'b'", InSet({'"', '\''})) == StripStartBy("b'", InSet({'"', '\''}));
      assert StripEndBy("b'", InSet({'"', '\''})) == StripEndBy("b", InSet({'"', '\''}));
    }
  }

  /** A single letter is a clean piece. */
  lemma ExampleLetterPiece(c: char)
    requires 'a' <= c <= 'z'
    ensures CleanPiece([c]) == [c]
  {
    StripByKeeps([c], IsPySpace);
    StripByKeeps([c], InSet({'"', '\''}));
  }

  /** Three known elements make the three-element list. */
  lemma ThreeElements<T>(xs: seq<T>, a: T, b: T, c: T)
    requires |xs| == 3 && xs[0] == a && xs[1] == b && xs[2] == c
    ensures xs == [a, b, c]
  {
  }

  /** Three non-empty strings pass the empty-piece filter. */
  lemma NonEmptyOfThree(a: string, b: string, c: string)
    requires a != [] && b != [] && c != []
    ensures NonEmpty([a, b, c]) == [a, b, c]
  {
    NonEmptyKeepsNonEmpty([a, b, c]);
  }

  /** Cleaning the example's pieces gives "a", "b" and "c". */
  lemma CleanPiecesExample()
    ensures CleanPieces(["a", " 'b'", "c"]) == ["a", "b", "c"]
  {
    var cleaned := CleanPieces(["a", " 'b'", "c"]);
    ExampleQuotedPiece();
    ExampleLetterPiece('a');
    ExampleLetterPiece('c');
    ThreeElements(cleaned, "a", "b", "c");
  }

  /** The fallback tags of the example reply: its three pieces, cleaned,
      none dropped as empty. */
  lemma FallbackTagsExample()
    ensures FallbackTags("a, 'b'\nc") == ["a", "b", "c"]
  {
    ExamplePieces();
    CleanPiecesExample();
    NonEmptyOfThree("a", "b", "c");
  }

  /** The fallback reading of a reply with no brackets: newlines separate
      like commas, and whitespace and quotes around a piece go. */
  lemma FallbackExample(parse: Parser, show: Json -> string)
    ensures ParseTags(parse, show, "a, 'b'\nc") == ["a", "b", "c"]
  {
    var text := "a, 'b'\nc";
    StripByKeeps(text, IsPySpace);
    assert BracketSpan(text).None? by {
      forall j | 0 <= j < |text| ensures !At(text, j, "[") {
        assert text[j..j + 1] == [text[j]];
      }
    }
    FallbackTagsExample();
  }
}
