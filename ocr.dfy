/** The parts of an ALTO or PAGE document the extractor reads, as values standing for the parsed XML,
    and the namespace registry that tells the two dialects apart. A text that lxml reports as `None`
    is `""` here (lxml never reports an empty text). An ALTO attribute is `None` when the element does
    not carry it, and reading it then is the KeyError of `attrib[...]`; the PAGE attributes the
    extractor reads are required by the PAGE schema and are taken as present when their element is. */
module Ocr {
  import opened Common
  import opened Text

  /** An ALTO `TextLine`: its `ID`, the four position attributes as written, and the `CONTENT` of each
      `String` child in document order; each is `None` where the element lacks the attribute. */
  datatype AltoLine = AltoLine(id: Option<string>, hpos: Option<string>, vpos: Option<string>, width: Option<string>,
                               height: Option<string>, contents: seq<Option<string>>)

  /** A PAGE `Word`: its `id`, the `points` of its `Coords` child (`None` when it has none), the `Unicode`
      texts inside its `Glyph`s and those of its own `TextEquiv`s, each in document order. */
  datatype PageWord = PageWord(id: string, coords: Option<string>, glyphTexts: seq<string>, equivTexts: seq<string>)

  /** A PAGE `TextLine`: its `id`, the `points` of its `Coords` child, the `Unicode` texts of its own
      `TextEquiv`s and its `Word` children. */
  datatype PageLine = PageLine(id: string, coords: Option<string>, equivTexts: seq<string>, words: seq<PageWord>)

  /** A parsed document: the namespace of its root, its base URL, the text lines in the root's namespace
      (in document order) and, for PAGE, the `imageFilename` of its `Page` element. `imageFilename` is
      `None` when the document has no `Page` element: `find` then gives `None`, and reading its `attrib`
      raises AttributeError. A `Page` element is taken to carry the attribute. */
  datatype Document = Document(uri: string, base: string, altoLines: seq<AltoLine>, pageLines: seq<PageLine>,
                               imageFilename: Option<string>)

  /** `XML_NS`: prefix and namespace of the four supported schema versions. */
  const XmlNs: seq<(string, string)> := [
    ("alto3", "http://www.loc.gov/standards/alto/ns-v3#"),
    ("alto4", "http://www.loc.gov/standards/alto/ns-v4#"),
    ("page2013", "http://schema.primaresearch.org/PAGE/gts/pagecontent/2013-07-15"),
    ("page2019", "http://schema.primaresearch.org/PAGE/gts/pagecontent/2019-07-15")]

  /** `[k for (k, v) in registry if v == uri][0]`: the first prefix registered for `uri`. */
  function Lookup(registry: seq<(string, string)>, uri: string): (r: Result<string>)
    ensures r.Err? ==> r.error == UnregisteredNamespace(uri)
  {
    LookupFrom(registry, uri, 0)
  }

  /** The first prefix registered for `uri` at position `i` or later. */
  function LookupFrom(registry: seq<(string, string)>, uri: string, i: nat): (r: Result<string>)
    requires i <= |registry|
    ensures r.Err? ==> r.error == UnregisteredNamespace(uri)
    decreases |registry| - i
  {
    if i == |registry| then Err(UnregisteredNamespace(uri))
    else if registry[i].1 == uri then Ok(registry[i].0)
    else LookupFrom(registry, uri, i + 1)
  }

  /** The lookup succeeds exactly when `uri` is registered, and then gives the prefix of its first entry. */
  lemma {:induction false} LookupSpec(registry: seq<(string, string)>, uri: string)
    ensures Lookup(registry, uri).Ok? <==> exists i :: 0 <= i < |registry| && registry[i].1 == uri
    ensures Lookup(registry, uri).Ok? ==>
      exists i :: (0 <= i < |registry| && registry[i] == (Lookup(registry, uri).value, uri) &&
                   forall k :: 0 <= k < i ==> registry[k].1 != uri)
  {
    LookupFromSpec(registry, uri, 0);
  }

  lemma {:induction false} LookupFromSpec(registry: seq<(string, string)>, uri: string, i: nat)
    requires i <= |registry|
    ensures LookupFrom(registry, uri, i).Ok? <==> exists j :: i <= j < |registry| && registry[j].1 == uri
    ensures LookupFrom(registry, uri, i).Ok? ==>
      exists j :: (i <= j < |registry| && registry[j] == (LookupFrom(registry, uri, i).value, uri) &&
                   forall k :: i <= k < j ==> registry[k].1 != uri)
    decreases |registry| - i
  {
    if i < |registry| && registry[i].1 != uri {
      LookupFromSpec(registry, uri, i + 1);
      if LookupFrom(registry, uri, i).Ok? {
        var j :| i + 1 <= j < |registry| && registry[j] == (LookupFrom(registry, uri, i).value, uri) &&
          forall k :: i + 1 <= k < j ==> registry[k].1 != uri;
        assert forall k :: i <= k < j ==> registry[k].1 != uri;
      }
    }
  }

  /** The namespace of each supported version maps back to its own prefix. */
  lemma {:induction false} LookupXmlNs()
    ensures Lookup(XmlNs, XmlNs[0].1) == Ok(XmlNs[0].0) && Lookup(XmlNs, XmlNs[1].1) == Ok(XmlNs[1].0)
    ensures Lookup(XmlNs, XmlNs[2].1) == Ok(XmlNs[2].0) && Lookup(XmlNs, XmlNs[3].1) == Ok(XmlNs[3].0)
  {
    var u0, u1, u2, u3 := XmlNs[0].1, XmlNs[1].1, XmlNs[2].1, XmlNs[3].1;
    assert u0[38] != u1[38] && u2[56] != u3[56];
    assert |u0| == |u1| == 40 && |u2| == |u3| == 63;
    forall i, j | 0 <= i < j < |XmlNs| ensures XmlNs[i].1 != XmlNs[j].1 {
    }
    LookupDistinct(XmlNs, 0);
    LookupDistinct(XmlNs, 1);
    LookupDistinct(XmlNs, 2);
    LookupDistinct(XmlNs, 3);
  }

  /** In a registry whose namespaces are pairwise distinct, each namespace maps to its own prefix. */
  lemma {:induction false} LookupDistinct(registry: seq<(string, string)>, i: nat)
    requires i < |registry|
    requires forall a, b :: 0 <= a < b < |registry| ==> registry[a].1 != registry[b].1
    ensures Lookup(registry, registry[i].1) == Ok(registry[i].0)
  {
    LookupFromBefore(registry, registry[i].1, 0, i);
  }

  /** When no entry from `j` up to `i` carries `uri` and entry `i` does, the lookup from `j` finds entry `i`. */
  lemma {:induction false} LookupFromBefore(registry: seq<(string, string)>, uri: string, j: nat, i: nat)
    requires j <= i < |registry| && registry[i].1 == uri
    requires forall k :: j <= k < i ==> registry[k].1 != uri
    ensures LookupFrom(registry, uri, j) == Ok(registry[i].0)
    decreases i - j
  {
    if j < i {
      LookupFromBefore(registry, uri, j + 1, i);
    }
  }

  /** `'alto' in prefix` */
  predicate IsAltoPrefix(prefix: string)
  {
    Contains(prefix, "alto")
  }

  predicate IsPagePrefix(prefix: string)
  {
    prefix == "page2013" || prefix == "page2019"
  }

  /** Of the registered prefixes exactly the two ALTO ones contain `alto`, and exactly the two PAGE ones are
      PAGE prefixes, so the four route to their own dialect. */
  lemma {:induction false} XmlNsDialects()
    ensures IsAltoPrefix(XmlNs[0].0) && IsAltoPrefix(XmlNs[1].0)
    ensures !IsAltoPrefix(XmlNs[2].0) && !IsAltoPrefix(XmlNs[3].0)
    ensures IsPagePrefix(XmlNs[2].0) && IsPagePrefix(XmlNs[3].0)
  {
    assert IsPrefix("alto", "alto3");
    assert IsPrefix("alto", "alto4");
    AltoNotIn("page2013");
    AltoNotIn("page2019");
  }

  /** A string without the letter `l` does not contain `alto`. */
  lemma {:induction false} AltoNotIn(s: string)
    requires 'l' !in s
    ensures !Contains(s, "alto")
  {
    if s != [] {
      if |s| >= 4 {
        assert s[..4][1] == s[1];
        assert s[1] != 'l';
      }
      AltoNotIn(s[1..]);
    }
  }
}
