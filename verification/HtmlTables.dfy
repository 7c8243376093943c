/** The element tables of the sanitizer. */
module HtmlTables {
  import opened Options
  import opened HtmlEvents

  const VOID_ELEMENTS: set<string> := {
    "area", "br", "col", "hr", "img", "wbr"
  }

  const OPTIONAL_END_TAG_BLOCK_ELEMENTS: set<string> := {
    "colgroup", "dd", "dt", "li", "p", "tbody", "td", "tfoot", "th", "thead", "tr"
  }

  const OPTIONAL_END_TAG_INLINE_ELEMENTS: set<string> := {
    "rp", "rt"
  }

  const BLOCK_ELEMENTS: set<string> := OPTIONAL_END_TAG_BLOCK_ELEMENTS + {
    "address", "article", "aside", "blockquote", "caption", "center", "del", "dir", "div", "dl", "figure",
    "figcaption", "footer", "h1", "h2", "h3", "h4", "h5", "h6", "header", "hgroup", "hr", "ins", "map", "menu",
    "nav", "ol", "pre", "script", "section", "table", "ul"
  }

  const INLINE_ELEMENTS: set<string> := OPTIONAL_END_TAG_INLINE_ELEMENTS + {
    "a", "abbr", "acronym", "b", "bdi", "bdo", "big", "br", "cite", "code", "del", "dfn", "em", "font", "i",
    "img", "ins", "kbd", "label", "map", "mark", "q", "ruby", "rp", "rt", "s", "samp", "small", "span",
    "strike", "strong", "sub", "sup", "time", "tt", "u", "var"
  }

  const SVG_ELEMENTS: set<string> := {
    "animate", "animateColor", "animateMotion", "animateTransform", "circle", "defs", "desc", "ellipse",
    "font-face", "font-face-name", "font-face-src", "g", "glyph", "hkern", "image", "linearGradient", "line",
    "marker", "metadata", "missing-glyph", "mpath", "path", "polygon", "polyline", "radialGradient", "rect",
    "set", "stop", "svg", "switch", "text", "title", "tspan", "use"
  }

  const SPECIAL_ELEMENTS: set<string> := {
    "script", "style"
  }

  /** The one lower-case name a plain object inherits that is also a tag name: looking it up in any of the
      tables gives a truthy value. */
  const INHERITED: string := "constructor"

  function SourceTables(): Tables {
    var optional := OPTIONAL_END_TAG_INLINE_ELEMENTS + OPTIONAL_END_TAG_BLOCK_ELEMENTS;
    Tables(VOID_ELEMENTS + {INHERITED}, optional + {INHERITED},
           BLOCK_ELEMENTS + {INHERITED}, INLINE_ELEMENTS + {INHERITED},
           SPECIAL_ELEMENTS + {INHERITED},
           VOID_ELEMENTS + BLOCK_ELEMENTS + INLINE_ELEMENTS + optional + SVG_ELEMENTS)
  }

  /** A special element is closed on the spot by a "/", and the inherited name always is: both break the
      condition under which the output is well nested. */
  lemma InheritedNameIsUnarySpecial()
    ensures INHERITED in SourceTables().voidElements && INHERITED in SourceTables().specialElements
    ensures "b" in SourceTables().validElements && "b" !in SourceTables().specialElements
    ensures "script" in SourceTables().specialElements && "script" in SourceTables().validElements
  {
    assert "b" in INLINE_ELEMENTS;
    assert |"b"| != |"script"| && |"b"| != |"style"| && |"b"| != |INHERITED|;
    assert "script" in BLOCK_ELEMENTS;
  }
}
