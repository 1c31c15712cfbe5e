# IMG element listener of lucy-xss-filter

lucy-xss-filter is a whitelist HTML sanitizer. A policy can attach an element
listener to a tag; the filter calls the listener on each matching element,
which it may rewrite in place. This project models the IMG listener
(`IMGListener.handleElement`), which turns a legacy movie element into an
`iframe` pointing at the cafe movie player:

1. it reads the element's `id`;
2. it renames the element to `iframe`;
3. it clears all attributes;
4. only if the clear reports success, it stores six fixed attributes
   (`frameborder='no'`, `width=342`, `height=296`, `scrolling=no`,
   `name='mplayer'`, and `src`, built as
   `'http://local.cafe.naver.com/MoviePlayer.nhn?dir=` + id + `?key=`);
5. it always marks the element as needing an explicit end tag.

Module `Markup` (`markup.dfy`) holds the part of the markup element the
listener uses: a class `Element` with a mutable `name`, an ordered attribute
store with unique names (`seq<Attribute>`) and a `close` flag. The
specification functions `Lookup` and `Put` give the store's map semantics:
`Put` replaces a value in place or appends a new attribute. Module
`ImgListener` (`img_listener.dfy`) holds `HandleElement`, the fixed attribute
set and the lemmas about it. Module `ImgListenerExample` replays the
listener's unit test on the model.

The `Element` class of the library is not part of this model; its methods are
modelled from the way the listener calls them. In `handleElement`, a missing
`id` is concatenated as Java's `null`, giving the text `"null"`. `JavaText`
models this.

## Model

| member | source | states |
|---|---|---|
| Markup.Lookup | src/test/java/com/nhncorp/lucy/security/xss/listener/IMGListener.java:25 | an attribute lookup finds a value exactly when some attribute has that name, and the value is one stored under that name |
| Markup.LookupAt | src/test/java/com/nhncorp/lucy/security/xss/listener/IMGListener.java:25 | with unique names, looking up the name of the attribute at any position yields that attribute's value |
| Markup.Element.GetAttributeValue | src/test/java/com/nhncorp/lucy/security/xss/listener/IMGListener.java:25 | `getAttributeValue("id")` returns the stored `id` value, or None (Java `null`) when the element has no `id` |
| Markup.Put | src/test/java/com/nhncorp/lucy/security/xss/listener/IMGListener.java:33-38 | storing a new name appends it at the end (insertion order kept); storing an existing name keeps the length; every name keeps its position and every other attribute is unchanged |
| Markup.PutLookup | src/test/java/com/nhncorp/lucy/security/xss/listener/IMGListener.java:33-38 | after storing `v` under `n`, a lookup of `n` yields `v` and a lookup of any other name is as before |
| Markup.PutUnique | src/test/java/com/nhncorp/lucy/security/xss/listener/IMGListener.java:33-38 | storing an attribute keeps attribute names unique |
| Markup.Element.PutAttribute | src/test/java/com/nhncorp/lucy/security/xss/listener/IMGListener.java:33-38 | `putAttribute` sets the store to `Put` of the old store and keeps names unique |
| Markup.Element.SetName | src/test/java/com/nhncorp/lucy/security/xss/listener/IMGListener.java:29 | `setName` changes only the name, to the given one |
| Markup.Element.RemoveAllAttributes | src/test/java/com/nhncorp/lucy/security/xss/listener/IMGListener.java:31 | `removeAllAttributes` reports the element's clear outcome (`clearOk`); it never adds an attribute; when it reports success the store is empty; either way names stay unique and nothing but the store changes |
| Markup.Element.SetClose | src/test/java/com/nhncorp/lucy/security/xss/listener/IMGListener.java:41 | `setClose` changes only the end-tag flag |
| ImgListener.HandleElement | src/test/java/com/nhncorp/lucy/security/xss/listener/IMGListener.java:23-42 | afterwards the name is `iframe` and the end-tag flag is set on every path; when the element's clear succeeds (`clearOk`) the attributes are exactly the six fixed pairs in order, with `src` built from the `id` read BEFORE any change; when it fails no attribute is stored: the store holds only attributes the element had before |
| ImgListener.PutIframeAttributes | src/test/java/com/nhncorp/lucy/security/xss/listener/IMGListener.java:33-38 | the six `putAttribute` calls on an element whose store was emptied leave exactly the fixed attribute list, in call order, with the given `src` |
| ImgListener.BuildIframeAttributes | src/test/java/com/nhncorp/lucy/security/xss/listener/IMGListener.java:33-38 | the six `putAttribute` calls on an emptied store give exactly the fixed attribute list, in call order |
| ImgListener.PutNext | src/test/java/com/nhncorp/lucy/security/xss/listener/IMGListener.java:33-38 | each of the six calls appends its attribute after the ones stored before it, because no earlier fixed attribute has its name |
| ImgListener.IframeLookup | src/test/java/com/nhncorp/lucy/security/xss/listener/IMGListener.java:31-39 | the rewritten element has an attribute of a name exactly when that name is one of the six fixed names, so no other original attribute survives; its `src` is the generated value and `frameborder`/`name` keep their literal quotes (`'no'`, `'mplayer'`) |
| ImgListener.SrcValueRoundTrip | src/test/java/com/nhncorp/lucy/security/xss/listener/IMGListener.java:27 | the generated `src` embeds the `id` text verbatim between the player URL and `?key=`: reading it back gives the `id` unchanged |
| ImgListener.SrcCarriesOriginalId | src/test/java/com/nhncorp/lucy/security/xss/listener/IMGListener.java:25-38 | for any element with an `id` attribute, the movie id read back from the rewritten element's `src` is that original `id` value |
| ImgListener.SrcQuoteNeverClosed | src/test/java/com/nhncorp/lucy/security/xss/listener/IMGListener.java:27 | the generated `src` starts with a single quote that the listener never closes: its only other quotes are those of the `id` |
| ImgListenerExample.RewriteTestElement | src/test/java/com/nhncorp/lucy/security/xss/XssFilterTest.java:167-175 | the test's `IMG` element (its `id`, `height`, thumbnail `src`, `width` and `movietype`) becomes an `iframe` with the end-tag flag set and, its clear succeeding, exactly the six attributes of the expected output, with the test's movie id inside `src` |
| ImgListenerExample.ExpectedIsRewrite | src/test/java/com/nhncorp/lucy/security/xss/XssFilterTest.java:172 | the attributes in the test's expected output are the listener's fixed set built around the test's movie id |

## Left out

- The filter pipeline around the listener (parser, policy matching, base64 data-URI re-filtering, serializer) and the `XssFilter` tests of it are not part of this model. Only the listener itself is modelled.
- Serialisation of the rewritten element to text, including the quoting seen in the test's expected string, is done by serializer code that is not part of this model. `RewriteTestElement` checks the attribute list, not the printed text.
- Markup.Element.RemoveAllAttributes: the library's `Element` class is not part of this model, so when its clear fails is unknown. The model makes the outcome a field, `clearOk`, fixed when the element is made; `HandleElement` is proved for both values. The contract says only what a caller may rely on: it adds nothing, and success means an empty store. When the clear fails, the contract does not say which of the old attributes remain.
- Markup.Element.GetAttributeValue: names are matched exactly. Any case folding of attribute names in the library's `Element` is not modelled.
- Markup.Put: modelled as insertion-ordered map semantics (replace in place, otherwise append). The library's own store is not part of this model.
- The `ElementListener` interface and the lookup of listeners by name from the policy are not modelled. `HandleElement` is a plain method.
- The other listeners in the library (embed and object) are not part of this model.
