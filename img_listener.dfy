/** The IMG listener: it rewrites a legacy movie element into an `iframe` that
    points at the cafe movie player, replaces all its attributes with a fixed set,
    and forces an explicit end tag. */
module ImgListener {
  import opened Markup

  /** Text placed before the element's `id` in the generated `src`. It opens a
      single quote that the listener never closes. */
  const SrcPrefix := "'" + PlayerUrl

  /** The movie player endpoint, up to the `dir` parameter: host, path and query.
      The one literal of the source is written in these three pieces because the
      verifier decides facts about short literals (such as "contains no quote")
      far more cheaply than about one long literal; PlayerUrlText joins them. */
  const PlayerUrl := "http://local.cafe.naver.com" + "/MoviePlayer.nhn" + "?dir="

  /** Text placed after the element's `id` in the generated `src`. */
  const SrcSuffix := "?key="

  /** The names the rewritten element carries, in order. */
  const IframeNames := ["frameborder", "width", "height", "scrolling", "name", "src"]

  /** Java's string conversion of a possibly null String inside `+`: `null` becomes "null". */
  function JavaText(s: Option<string>): string
  {
    match s
    case None => "null"
    case Some(t) => t
  }

  /** The `src` value built around the element's original `id`. */
  function SrcValue(id: Option<string>): string
  {
    SrcPrefix + JavaText(id) + SrcSuffix
  }

  /** The movie identifier a generated `src` carries: the text between SrcPrefix and
      SrcSuffix, or None when `src` does not have that shape. */
  function DirOf(src: string): Option<string>
  {
    if |SrcPrefix| + |SrcSuffix| <= |src|
       && src[..|SrcPrefix|] == SrcPrefix
       && src[|src| - |SrcSuffix|..] == SrcSuffix
    then Some(src[|SrcPrefix|..|src| - |SrcSuffix|])
    else None
  }

  /** The generated `src` embeds the `id` verbatim: it can be read back unchanged. */
  lemma SrcValueRoundTrip(id: Option<string>)
    ensures DirOf(SrcValue(id)) == Some(JavaText(id))
  {
    var t := JavaText(id);
    var s := SrcValue(id);
    assert s[..|SrcPrefix|] == SrcPrefix;
    assert s[|s| - |SrcSuffix|..] == SrcSuffix;
    assert s[|SrcPrefix|..|s| - |SrcSuffix|] == t;
  }

  /** How many times `c` occurs in `s`. */
  function Occurrences(s: string, c: char): nat
  {
    if s == [] then 0 else (if s[0] == c then 1 else 0) + Occurrences(s[1..], c)
  }

  lemma {:induction false} OccurrencesAppend(a: string, b: string, c: char)
    ensures Occurrences(a + b, c) == Occurrences(a, c) + Occurrences(b, c)
  {
    if a != [] {
      assert (a + b)[1..] == a[1..] + b;
      OccurrencesAppend(a[1..], b, c);
    } else {
      assert a + b == b;
    }
  }

  lemma {:induction false} OccurrencesAbsent(s: string, c: char)
    requires c !in s
    ensures Occurrences(s, c) == 0
  {
    if s != [] {
      assert s[0] != c;
      OccurrencesAbsent(s[1..], c);
    }
  }

  /** The player URL contains no single quote. */
  lemma PlayerUrlUnquoted()
    ensures '\'' !in PlayerUrl
  {
  }

  /** The generated `src` starts with a single quote that the listener never closes:
      the only quotes in it besides that one are those of the `id` itself. */
  lemma SrcQuoteNeverClosed(id: Option<string>)
    ensures SrcValue(id)[0] == '\''
    ensures Occurrences(SrcValue(id), '\'') == 1 + Occurrences(JavaText(id), '\'')
  {
    PlayerUrlUnquoted();
    OccurrencesAbsent(PlayerUrl, '\'');
    OccurrencesAbsent(SrcSuffix, '\'');
    OccurrencesAppend("'", PlayerUrl, '\'');
    OccurrencesAppend(SrcPrefix, JavaText(id), '\'');
    OccurrencesAppend(SrcPrefix + JavaText(id), SrcSuffix, '\'');
  }

  /** The player URL spelled out as one literal. */
  lemma PlayerUrlText()
    ensures PlayerUrl == "http://local.cafe.naver.com/MoviePlayer.nhn?dir="
  {
  }

  /** The fixed attribute set of the rewritten element, in insertion order. Values
      keep their literal quote characters; the listener does no quoting of its own. */
  function IframeAttributes(src: string): seq<Attribute>
  {
    [ Attribute("frameborder", "'no'"),
      Attribute("width", "342"),
      Attribute("height", "296"),
      Attribute("scrolling", "no"),
      Attribute("name", "'mplayer'"),
      Attribute("src", src) ]
  }

  /** The six fixed attributes have distinct names, and those names are IframeNames. */
  lemma IframeAttributesWellFormed(src: string)
    ensures UniqueNames(IframeAttributes(src))
    ensures forall i :: 0 <= i < 6 ==> IframeAttributes(src)[i].name == IframeNames[i]
  {
  }

  /** Storing the next fixed attribute after the first `k` of them appends it: the
      six `putAttribute` calls on a cleared element build IframeAttributes in order. */
  lemma {:induction false} PutNext(src: string, k: nat)
    requires k < 6
    ensures Put(IframeAttributes(src)[..k], IframeAttributes(src)[k].name, IframeAttributes(src)[k].value)
            == IframeAttributes(src)[..k + 1]
  {
    var all := IframeAttributes(src);
    IframeAttributesWellFormed(src);
    assert !HasName(all[..k], all[k].name) by {
      forall i | 0 <= i < k
        ensures all[..k][i].name != all[k].name
      {
        assert all[..k][i] == all[i];
      }
    }
    assert all[..k] + [all[k]] == all[..k + 1];
  }

  /** Only the six fixed names occur in the rewritten element, so no original
      attribute (an old `id`, `height`, thumbnail `src`, `movietype`, ...) survives
      under any other name; the `src` found there is the generated one, and the
      quoted values keep their quote characters. */
  lemma IframeLookup(src: string, n: string)
    ensures HasName(IframeAttributes(src), n) <==> n in IframeNames
    ensures n !in IframeNames ==> Lookup(IframeAttributes(src), n) == None
    ensures Lookup(IframeAttributes(src), "src") == Some(src)
    ensures Lookup(IframeAttributes(src), "frameborder") == Some("'no'")
    ensures Lookup(IframeAttributes(src), "name") == Some("'mplayer'")
  {
    var all := IframeAttributes(src);
    IframeAttributesWellFormed(src);
    if HasName(all, n) {
      var k :| 0 <= k < |all| && all[k].name == n;
      assert IframeNames[k] == n;
    }
    if n in IframeNames {
      var k :| 0 <= k < |IframeNames| && IframeNames[k] == n;
      assert all[k].name == n;
    }
    LookupAt(all, 0);
    LookupAt(all, 4);
    LookupAt(all, 5);
  }

  /** The `src` of the rewritten element carries the ORIGINAL element's `id`: given
      an element whose attribute `i` is its `id`, the movie identifier read back from
      the generated `src` is that attribute's value. */
  lemma SrcCarriesOriginalId(attrs: seq<Attribute>, i: nat)
    requires UniqueNames(attrs)
    requires i < |attrs| && attrs[i].name == "id"
    ensures Lookup(IframeAttributes(SrcValue(Lookup(attrs, "id"))), "src").Some?
    ensures DirOf(Lookup(IframeAttributes(SrcValue(Lookup(attrs, "id"))), "src").value) == Some(attrs[i].value)
  {
    LookupAt(attrs, i);
    IframeLookup(SrcValue(Lookup(attrs, "id")), "src");
    SrcValueRoundTrip(Lookup(attrs, "id"));
  }

  /** The six `putAttribute` calls, made in the listener's order on an emptied
      store, leave exactly IframeAttributes, in that order. */
  lemma BuildIframeAttributes(src: string)
    ensures Put(Put(Put(Put(Put(Put([], "frameborder", "'no'"), "width", "342"), "height", "296"),
                        "scrolling", "no"), "name", "'mplayer'"), "src", src)
            == IframeAttributes(src)
  {
    var all := IframeAttributes(src);
    assert all[..0] == [];
    PutNext(src, 0);
    PutNext(src, 1);
    PutNext(src, 2);
    PutNext(src, 3);
    PutNext(src, 4);
    PutNext(src, 5);
    assert all[..6] == all;
  }

  /** The listener's six `putAttribute` calls, in its order, on an emptied element. */
  method PutIframeAttributes(e: Element, src: string)
    requires e.Valid() && e.attributes == []
    modifies e`attributes
    ensures e.Valid()
    ensures e.attributes == IframeAttributes(src)
  {
    e.PutAttribute("frameborder", "'no'");
    e.PutAttribute("width", "342");
    e.PutAttribute("height", "296");
    e.PutAttribute("scrolling", "no");
    e.PutAttribute("name", "'mplayer'");
    e.PutAttribute("src", src);
    BuildIframeAttributes(src);
  }

  /** Rewrites `e` in place. The `id` is read before anything changes. The fixed
      attributes are stored only when clearing the old ones reports success;
      otherwise no attribute is stored and the store holds only attributes the
      element already had. The name and the end-tag flag change on every path. */
  method HandleElement(e: Element)
    requires e.Valid()
    modifies e`name, e`attributes, e`close
    ensures e.Valid()
    ensures e.name == "iframe"
    ensures e.close
    ensures e.clearOk ==> e.attributes == IframeAttributes(SrcValue(old(Lookup(e.attributes, "id"))))
    ensures !e.clearOk ==> forall a :: a in e.attributes ==> a in old(e.attributes)
  {
    var id := e.GetAttributeValue("id");
    var srcValue := SrcPrefix + JavaText(id) + SrcSuffix;
    e.SetName("iframe");
    ghost var before := e.attributes;
    var result := e.RemoveAllAttributes();
    assert result == e.clearOk;
    if !result {
      assert forall a :: a in e.attributes ==> a in before;
    }
    if result {
      PutIframeAttributes(e, srcValue);
    }
    e.SetClose(true);
  }
}

/** The element of the listener's unit test, rewritten by the listener: the tag
    name, attribute list and end-tag flag it ends up with. The element is built
    with the test input's attributes, in source order, each value written as it
    stands in the input (double quotes included). */
module ImgListenerExample {
  import opened Markup
  import opened ImgListener

  const MovieId := "mms://stream.media.naver.com/cafeucc2/2007/8/6/41/46b6e5b82fd46b6e5c23c8-danyecafe.wmv"

  /** The attributes the test expects on the rewritten element, in order. */
  const Expected :=
    [ Attribute("frameborder", "'no'"),
      Attribute("width", "342"),
      Attribute("height", "296"),
      Attribute("scrolling", "no"),
      Attribute("name", "'mplayer'"),
      Attribute("src", "'" + "http://local.cafe.naver.com/MoviePlayer.nhn?dir=" + MovieId + "?key=") ]

  /** The expected attributes are the listener's fixed set around this test's movie id. */
  lemma ExpectedIsRewrite()
    ensures Expected == IframeAttributes(SrcValue(Some(MovieId)))
  {
    PlayerUrlText();
  }

  /** The thumbnail `src` of the test input, with its double quotes. */
  const ThumbSrc := "\"http://thumb.media.naver.com/cafeucc2/2007/8/6/41/46b6e5b82fd46b6e5c23c8-danyecafe_player.jpg\""

  /** The test input's attributes, stored in source order. */
  function TestInput(): seq<Attribute>
  {
    Put(Put(Put(Put(Put([], "id", MovieId), "height", "284"), "src", ThumbSrc), "width", "342"),
        "movietype", "\"1\"")
  }

  /** The `id` the listener reads from the test input is the movie id. */
  lemma TestInputId()
    ensures Lookup(TestInput(), "id") == Some(MovieId)
  {
    var a1 := Put([], "id", MovieId);
    var a2 := Put(a1, "height", "284");
    var a3 := Put(a2, "src", ThumbSrc);
    var a4 := Put(a3, "width", "342");
    PutLookup([], "id", MovieId, "id");
    PutLookup(a1, "height", "284", "id");
    PutLookup(a2, "src", ThumbSrc, "id");
    PutLookup(a3, "width", "342", "id");
    PutLookup(a4, "movietype", "\"1\"", "id");
  }

  /** The test's `IMG` element, its attributes stored in source order, on which
      the attribute clear succeeds. */
  method TestElement() returns (e: Element)
    ensures fresh(e) && e.Valid()
    ensures e.attributes == TestInput() && e.clearOk
  {
    e := new Element("IMG", true);
    e.PutAttribute("id", MovieId);
    e.PutAttribute("height", "284");
    e.PutAttribute("src", ThumbSrc);
    e.PutAttribute("width", "342");
    e.PutAttribute("movietype", "\"1\"");
  }

  /** The rewrite of the test, on an element whose attribute clear succeeds. */
  method RewriteTestElement() returns (name: string, attrs: seq<Attribute>, close: bool)
    ensures name == "iframe" && close
    ensures attrs == Expected
  {
    var e := TestElement();
    TestInputId();
    HandleElement(e);
    assert e.attributes == IframeAttributes(SrcValue(Some(MovieId)));
    ExpectedIsRewrite();
    name, attrs, close := e.name, e.attributes, e.close;
  }
}
