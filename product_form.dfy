/** The create-product form: its schema and the normaliser the image-URL
    textarea applies when it loses focus. */
module ProductForm {

  import opened Wrappers
  import opened Strings
  import opened Validation
  import Arrays

  // ----- Image-URL textarea

  /** `.map((line) => line.trim())`. */
  function TrimLines(lines: seq<string>): (r: seq<string>)
    ensures |r| == |lines|
    ensures forall k :: 0 <= k < |lines| ==> r[k] == Trim(lines[k])
  {
    seq(|lines|, k requires 0 <= k < |lines| => Trim(lines[k]))
  }

  /** `.filter(Boolean)` on strings: the empty string is falsy. */
  predicate NonEmptyLine(line: string) {
    line != ""
  }

  /** The lines that survive: trimmed, blank ones dropped, in order. */
  function KeptLines(text: string): seq<string> {
    Arrays.Filter(TrimLines(Split(text, '\n')), NonEmptyLine)
  }

  /** `value.split('\n').map(trim).filter(Boolean).join('\n')`. */
  function NormalizeImageLines(text: string): string {
    Join(KeptLines(text), '\n')
  }

  /** Every kept line is non-empty, is its own trim and holds no line
      break, and the kept lines are the trimmed input lines in order. */
  lemma KeptLinesShape(text: string)
    ensures forall k :: 0 <= k < |KeptLines(text)| ==>
      KeptLines(text)[k] != "" && Trim(KeptLines(text)[k]) == KeptLines(text)[k] && '\n' !in KeptLines(text)[k]
    ensures Arrays.IsSubsequence(KeptLines(text), TrimLines(Split(text, '\n')))
  {
    var parts := Split(text, '\n');
    var trimmed := TrimLines(parts);
    var kept := KeptLines(text);
    forall k | 0 <= k < |kept|
      ensures kept[k] != "" && Trim(kept[k]) == kept[k] && '\n' !in kept[k]
    {
      var m :| 0 <= m < |trimmed| && trimmed[m] == kept[k];
      TrimIdempotent(parts[m]);
      TrimKeepsAbsent(parts[m], '\n');
    }
    Arrays.FilterIsSubsequence(trimmed, NonEmptyLine);
  }

  lemma {:induction false} JoinStartsWithFirst(parts: seq<string>, sep: char)
    requires parts != []
    ensures parts[0] <= Join(parts, sep)
  {
  }

  /** The normalised text splits back into exactly the kept lines, or is
      empty when none is kept: it holds no empty line and no line with
      white space around it. */
  lemma NormalizedLines(text: string)
    ensures KeptLines(text) == [] ==> NormalizeImageLines(text) == ""
    ensures KeptLines(text) != [] ==> Split(NormalizeImageLines(text), '\n') == KeptLines(text)
  {
    var kept := KeptLines(text);
    KeptLinesShape(text);
    if kept != [] {
      SplitJoin(kept, '\n');
    }
  }

  predicate AllBlank(lines: seq<string>) {
    forall k :: 0 <= k < |lines| ==> AllWhitespace(lines[k])
  }

  /** No line is kept exactly when every line is blank. */
  lemma KeptNoneIff(lines: seq<string>)
    ensures Arrays.Filter(TrimLines(lines), NonEmptyLine) == [] <==> AllBlank(lines)
  {
    var trimmed := TrimLines(lines);
    if AllBlank(lines) {
      forall m | 0 <= m < |trimmed| ensures !NonEmptyLine(trimmed[m]) {
        TrimEmptyIff(lines[m]);
      }
      Arrays.FilterKeepsNone(trimmed, NonEmptyLine);
    } else {
      var k :| 0 <= k < |lines| && !AllWhitespace(lines[k]);
      TrimEmptyIff(lines[k]);
      assert NonEmptyLine(trimmed[k]);
    }
  }

  lemma {:induction false} JoinNonEmptyParts(parts: seq<string>, sep: char)
    requires forall k :: 0 <= k < |parts| ==> parts[k] != ""
    ensures Join(parts, sep) == "" <==> parts == []
  {
    if parts != [] {
      JoinStartsWithFirst(parts, sep);
    }
  }

  /** The text normalises to `''` exactly when every one of its lines is
      blank. */
  lemma NormalizeEmptyIff(text: string)
    ensures NormalizeImageLines(text) == "" <==> AllBlank(Split(text, '\n'))
  {
    var lines := Split(text, '\n');
    var kept := KeptLines(text);
    assert kept == Arrays.Filter(TrimLines(lines), NonEmptyLine);
    KeptNoneIff(lines);
    assert forall k :: 0 <= k < |kept| ==> NonEmptyLine(kept[k]);
    JoinNonEmptyParts(kept, '\n');
    assert NormalizeImageLines(text) == Join(kept, '\n');
  }

  /** Normalising twice is normalising once. */
  lemma NormalizeIdempotent(text: string)
    ensures NormalizeImageLines(NormalizeImageLines(text)) == NormalizeImageLines(text)
  {
    var kept := KeptLines(text);
    var once := NormalizeImageLines(text);
    NormalizedLines(text);
    KeptLinesShape(text);
    if kept == [] {
      assert Split(once, '\n') == [""];
      assert TrimLines([""]) == [""];
      assert Trim("") == "";
      assert KeptLines(once) == [];
    } else {
      assert TrimLines(kept) == kept;
      Arrays.FilterKeepsAll(kept, NonEmptyLine);
      assert KeptLines(once) == kept;
    }
  }

  // ----- Schema

  /** What the form holds under `images`: nothing, the `[]` default while
      the textarea is untouched, or the textarea's text once anything is
      typed into it. The blur normaliser rewrites only the element's
      text, so the held text is what was typed. */
  datatype ImagesValue = NoImages | ImageList(urls: seq<string>) | ImageText(text: string)

  /** The values the form submits. */
  datatype ProductValues = ProductValues(
    name: string,
    description: Option<string>,
    price: int,
    images: ImagesValue,
    categories: Option<seq<string>>)

  /** The schema's rules: a name of at least one character, a price of at
      least 0, and `images`, when present, an array of strings, so text
      from the textarea is refused; the other fields are optional. */
  function ProductIssues(v: ProductValues): (r: seq<Issue>)
    ensures r == [] <==> |v.name| >= 1 && v.price >= 0 && !v.images.ImageText?
    ensures Issue("name", Some("Nombre requerido")) in r <==> |v.name| < 1
    ensures Issue("price", None) in r <==> v.price < 0
    ensures Issue("images", None) in r <==> v.images.ImageText?
    ensures forall k :: 0 <= k < |r| ==> r[k].field in {"name", "price", "images"}
  {
    (if |v.name| < 1 then [Issue("name", Some("Nombre requerido"))] else []) +
    (if v.price < 0 then [Issue("price", None)] else []) +
    (if v.images.ImageText? then [Issue("images", None)] else [])
  }

  /** Once image URLs are typed, no values pass the schema, whatever the
      other fields hold and whether or not the text was normalised; with
      the textarea untouched, a named product with a price of at least 0
      passes. */
  lemma TypedImagesBlockCreation(v: ProductValues, typed: string)
    ensures ProductIssues(v.(images := ImageText(typed))) != []
    ensures ProductIssues(v.(images := ImageText(NormalizeImageLines(typed)))) != []
    ensures |v.name| >= 1 && v.price >= 0 ==> ProductIssues(v.(images := ImageList([]))) == []
  {
    assert Issue("images", None) in ProductIssues(v.(images := ImageText(typed)));
    assert Issue("images", None) in ProductIssues(v.(images := ImageText(NormalizeImageLines(typed))));
  }
}
