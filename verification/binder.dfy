/** `HomeDataBinder`: writes a JSON payload into the elements that carry a
    `data-bind` attribute, then renders the three link lists as markup. */
module Binder {
  import opened Maybe
  import opened Json
  import Path
  import Strings

  /** What an element holds: text set through `textContent`, or markup set
      through `innerHTML` (kept as the string written; it is not parsed). */
  datatype Content = Text(text: string) | Markup(html: string)

  /** A DOM element, reduced to what the binder reads and writes: the
      upper-case `tagName`, the `src` property, the content, and the `href`
      and `data-bind` attributes. */
  datatype Element = Element(tag: string, src: string, content: Content,
                             href: Option<string>, bind: Option<string>)

  /** The element differs from `before` in its content at most. */
  predicate OnlyContentChanged(before: Element, after: Element)
  {
    after == before.(content := after.content)
  }

  predicate SameBinds(a: seq<Element>, b: seq<Element>)
  {
    |a| == |b| && forall i :: 0 <= i < |a| ==> a[i].bind == b[i].bind
  }

  /** An `<img>` that carries a `data-bind` attribute. */
  predicate IsBoundImage(e: Element)
  {
    e.tag == "IMG" && e.bind.Some?
  }

  /** The text `textContent = v` leaves: `null` empties the element. */
  function TextOf(v: Json): string
    requires Stringable(v)
  {
    if v.Null? then "" else ToStr(v)
  }

  /** `updateElement(element, value)`: a bound image gets `src`, every other
      element (a link with `href` included) gets its text replaced. Both
      assignments convert the value with `String`, so a value it rejects
      throws and nothing is written. */
  function UpdateElement(e: Element, v: Json): (r: Result<Element>)
    ensures r.Thrown? <==> !Stringable(v)
    ensures r.Ok? ==> r.value.tag == e.tag && r.value.href == e.href && r.value.bind == e.bind
    ensures r.Ok? && IsBoundImage(e) ==> r.value.src == ToStr(v) && r.value.content == e.content
    ensures r.Ok? && !IsBoundImage(e) ==> r.value.src == e.src && r.value.content == Text(TextOf(v))
  {
    if !Stringable(v) then Thrown
    else if e.tag == "IMG" && e.bind.Some? then Ok(e.(src := ToStr(v)))
    else if e.tag == "A" && e.href.Some? then Ok(e.(content := Text(TextOf(v))))
    else Ok(e.(content := Text(TextOf(v))))
  }

  /** A second write replaces the first: the element keeps no trace of `v`. */
  lemma UpdateOverwrites(e: Element, v: Json, w: Json)
    requires UpdateElement(e, v).Ok?
    ensures UpdateElement(UpdateElement(e, v).value, w) == UpdateElement(e, w)
  {
  }

  /** A document after a binding step, and whether the step threw. */
  datatype Bound = Bound(doc: seq<Element>, threw: bool)

  /** The element's path resolves to a value that `String` rejects, so its
      write throws. Only the `data-bind` attribute matters. */
  predicate ElementThrows(e: Element, data: Json)
  {
    && e.bind.Some?
    && Path.GetNestedValue(data, e.bind.value).Some?
    && !Stringable(Path.GetNestedValue(data, e.bind.value).value)
  }

  /** One element of the `querySelectorAll('[data-bind]')` loop: written only
      when its path resolves, and then as `updateElement` writes it. */
  function BindElement(e: Element, data: Json): (r: Result<Element>)
    ensures r.Thrown? <==> ElementThrows(e, data)
    ensures r.Ok? ==> r.value.tag == e.tag && r.value.href == e.href && r.value.bind == e.bind
    ensures e.bind.None? || Path.GetNestedValue(data, e.bind.value).None? ==> r == Ok(e)
    ensures e.bind.Some? && Path.GetNestedValue(data, e.bind.value).Some? ==>
              r == UpdateElement(e, Path.GetNestedValue(data, e.bind.value).value)
  {
    if e.bind.None? then Ok(e)
    else match Path.GetNestedValue(data, e.bind.value)
      case None => Ok(e)
      case Some(v) => UpdateElement(e, v)
  }

  function PassStopFrom(doc: seq<Element>, data: Json, i: nat): (n: nat)
    requires i <= |doc|
    ensures i <= n <= |doc|
    ensures forall j :: i <= j < n ==> !ElementThrows(doc[j], data)
    ensures n < |doc| ==> ElementThrows(doc[n], data)
    decreases |doc| - i
  {
    if i == |doc| || ElementThrows(doc[i], data) then i
    else PassStopFrom(doc, data, i + 1)
  }

  /** The index of the first element whose write throws, `|doc|` when none
      does: the `forEach` stops there. */
  function PassStop(doc: seq<Element>, data: Json): (n: nat)
    ensures n <= |doc|
    ensures forall j :: 0 <= j < n ==> !ElementThrows(doc[j], data)
    ensures n < |doc| ==> ElementThrows(doc[n], data)
  {
    PassStopFrom(doc, data, 0)
  }

  /** The stop index sees only the `data-bind` attributes. */
  lemma PassStopSameBinds(a: seq<Element>, b: seq<Element>, data: Json)
    requires SameBinds(a, b)
    ensures PassStop(a, data) == PassStop(b, data)
  {
    assert forall j :: 0 <= j < |a| ==> ElementThrows(a[j], data) == ElementThrows(b[j], data);
  }

  /** The `forEach` over every bound element, in document order, up to the
      first write that throws: before it, each element whose path resolves is
      updated with its own value and every other element is left as it was;
      from it on nothing changes. The pass throws exactly when some bound
      value cannot be converted to a string, and no `data-bind` attribute
      changes. */
  function BindPass(doc: seq<Element>, data: Json): (r: Bound)
    ensures |r.doc| == |doc| && SameBinds(doc, r.doc)
    ensures r.threw <==> exists i :: 0 <= i < |doc| && ElementThrows(doc[i], data)
    ensures forall i :: 0 <= i < |doc| && (PassStop(doc, data) <= i || doc[i].bind.None? ||
                                           Path.GetNestedValue(data, doc[i].bind.value).None?) ==>
              r.doc[i] == doc[i]
    ensures forall i :: 0 <= i < PassStop(doc, data) && doc[i].bind.Some? &&
                        Path.GetNestedValue(data, doc[i].bind.value).Some? ==>
              UpdateElement(doc[i], Path.GetNestedValue(data, doc[i].bind.value).value) == Ok(r.doc[i])
  {
    var n := PassStop(doc, data);
    Bound(seq(|doc|, i requires 0 <= i < |doc| => if i < n then BindElement(doc[i], data).value else doc[i]),
          n < |doc|)
  }

  // ---------------------------------------------------------------------
  // The three link lists.

  datatype ListKind = InfoLinks | FaqLinks | FooterLinks

  /** The order `bindHomeData` binds the lists in. */
  const ListOrder: seq<ListKind> := [InfoLinks, FaqLinks, FooterLinks]

  /** The `data-bind` value that marks the list's container. */
  function ContainerKey(k: ListKind): string
  {
    match k
    case InfoLinks => "info-links"
    case FaqLinks => "faq-links"
    case FooterLinks => "footer-links"
  }

  /** The payload property that holds the list. */
  function DataKey(k: ListKind): string
  {
    match k
    case InfoLinks => "infoLinks"
    case FaqLinks => "faqLinks"
    case FooterLinks => "footerLinks"
  }

  /** The `join` separator. */
  function Separator(k: ListKind): string
  {
    if k == FooterLinks then " | " else ""
  }

  /** `${link.name}`: reading a property of a `null` link throws, a missing
      property prints as "undefined", and any other value is converted with
      `String`, which may throw. */
  function FieldText(link: Json, name: string): (r: Result<string>)
    ensures r.Thrown? <==> link.Null? || (Get(link, name).Some? && !Stringable(Get(link, name).value))
    ensures r.Ok? && Get(link, name).None? ==> r.value == "undefined"
    ensures r.Ok? && Get(link, name).Some? ==> r.value == ToStr(Get(link, name).value)
  {
    if link.Null? then Thrown
    else match Get(link, name)
      case None => Ok("undefined")
      case Some(v) => if Stringable(v) then Ok(ToStr(v)) else Thrown
  }

  /** The property that carries a link's target. */
  function TargetField(k: ListKind): string
  {
    match k
    case InfoLinks => "article"
    case FaqLinks => "faq"
    case FooterLinks => "action"
  }

  /** The template text before the target. */
  function OpenTag(k: ListKind): string
  {
    match k
    case InfoLinks => "<li><a href=\"#\" data-action=\"view-article\" data-article=\""
    case FaqLinks => "<li><a href=\"#\" data-action=\"view-faq\" data-faq=\""
    case FooterLinks => "<a href=\"#\" data-action=\""
  }

  /** The template text after the title. */
  function CloseTag(k: ListKind): string
  {
    if k == FooterLinks then "</a>" else "</a></li>"
  }

  /** Both properties the template reads print without throwing. */
  predicate Renders(k: ListKind, link: Json)
  {
    FieldText(link, TargetField(k)).Ok? && FieldText(link, "title").Ok?
  }

  /** The literal markup one link renders to; nothing is escaped, so the
      target and the title appear verbatim, and the markup is exactly as long
      as the template text plus the two printed fields. */
  function ItemHtml(k: ListKind, link: Json): (r: Result<string>)
    ensures r.Thrown? <==> !Renders(k, link)
    ensures r.Ok? ==>
              var target, title := FieldText(link, TargetField(k)).value, FieldText(link, "title").value;
              && Strings.StartsWith(r.value, OpenTag(k) + target + "\">")
              && Strings.EndsWith(r.value, title + CloseTag(k))
              && |r.value| == |OpenTag(k)| + |target| + 2 + |title| + |CloseTag(k)|
  {
    match (FieldText(link, TargetField(k)), FieldText(link, "title"))
    case (Ok(target), Ok(title)) =>
      var pre := OpenTag(k) + target + "\">";
      Strings.Enclosed(pre, title, CloseTag(k));
      Ok(pre + title + CloseTag(k))
    case _ => Thrown
  }

  /** `links.map(link => ...)`: the first link whose template throws ends the
      map with the `TypeError`. */
  function Items(k: ListKind, links: seq<Json>): (r: Result<seq<string>>)
    ensures r.Ok? <==> forall i :: 0 <= i < |links| ==> Renders(k, links[i])
    ensures r.Ok? ==> |r.value| == |links|
    ensures r.Ok? ==> forall i :: 0 <= i < |links| ==> ItemHtml(k, links[i]) == Ok(r.value[i])
    decreases |links|
  {
    if |links| == 0 then Ok([])
    else match ItemHtml(k, links[0])
      case Thrown => Thrown
      case Ok(first) =>
        match Items(k, links[1..])
        case Thrown => Thrown
        case Ok(rest) => Ok([first] + rest)
  }

  /** The markup a list renders to: `None` when the list is missing or falsy
      (the early return), `Thrown` when the value is not an array (it has no
      `map`) or one of its links does not render. */
  function Render(k: ListKind, links: Option<Json>): (r: Option<Result<string>>)
    ensures r.None? <==> links.None? || !Truthy(links.value)
    ensures r == Some(Thrown) <==>
              links.Some? && Truthy(links.value) &&
              (!links.value.Arr? || exists i :: 0 <= i < |links.value.items| && !Renders(k, links.value.items[i]))
  {
    if links.None? || !Truthy(links.value) then None
    else if !links.value.Arr? then Some(Thrown)
    else match Items(k, links.value.items)
      case Thrown => Some(Thrown)
      case Ok(items) => Some(Ok(Strings.Join(items, Separator(k))))
  }

  function FirstBoundFrom(doc: seq<Element>, key: string, i: nat): (r: Option<nat>)
    requires i <= |doc|
    ensures r.Some? ==> i <= r.value < |doc| && doc[r.value].bind == Some(key)
    ensures r.Some? ==> forall j :: i <= j < r.value ==> doc[j].bind != Some(key)
    ensures r.None? ==> forall j :: i <= j < |doc| ==> doc[j].bind != Some(key)
    decreases |doc| - i
  {
    if i == |doc| then None
    else if doc[i].bind == Some(key) then Some(i)
    else FirstBoundFrom(doc, key, i + 1)
  }

  /** `document.querySelector('[data-bind="key"]')`: the first element in
      document order whose `data-bind` is `key`. */
  function FirstBound(doc: seq<Element>, key: string): (r: Option<nat>)
    ensures r.Some? ==> r.value < |doc| && doc[r.value].bind == Some(key)
    ensures r.Some? ==> forall j :: 0 <= j < r.value ==> doc[j].bind != Some(key)
    ensures r.None? ==> forall j :: 0 <= j < |doc| ==> doc[j].bind != Some(key)
  {
    FirstBoundFrom(doc, key, 0)
  }

  /** The container lookup sees only the `data-bind` attributes. */
  lemma FirstBoundSameBinds(a: seq<Element>, b: seq<Element>)
    requires SameBinds(a, b)
    ensures forall key :: FirstBound(a, key) == FirstBound(b, key)
  {
  }

  /** `bindInfoLinks` / `bindFaqLinks` / `bindFooterLinks`: with a container
      and a truthy list, the container's markup is replaced by the rendered
      list; every other element, and every other part of the container, is
      left alone. */
  function BindList(doc: seq<Element>, k: ListKind, links: Option<Json>): (r: Result<seq<Element>>)
    ensures FirstBound(doc, ContainerKey(k)).None? || Render(k, links).None? ==> r == Ok(doc)
    ensures r.Thrown? <==> FirstBound(doc, ContainerKey(k)).Some? && Render(k, links) == Some(Thrown)
    ensures r.Ok? ==> |r.value| == |doc|
    ensures r.Ok? ==> forall i :: 0 <= i < |doc| ==> OnlyContentChanged(doc[i], r.value[i])
    ensures r.Ok? ==> forall i :: 0 <= i < |doc| && Some(i) != FirstBound(doc, ContainerKey(k)) ==>
                        r.value[i] == doc[i]
    ensures r.Ok? && FirstBound(doc, ContainerKey(k)).Some? && Render(k, links).Some? ==>
              r.value[FirstBound(doc, ContainerKey(k)).value].content == Markup(Render(k, links).value.value)
  {
    match FirstBound(doc, ContainerKey(k))
    case None => Ok(doc)
    case Some(c) =>
      match Render(k, links)
      case None => Ok(doc)
      case Some(Thrown) => Thrown
      case Some(Ok(html)) => Ok(doc[c := doc[c].(content := Markup(html))])
  }

  /** Element `i` is the container of one of the lists `kinds`. */
  predicate IsContainer(doc: seq<Element>, kinds: seq<ListKind>, i: nat)
  {
    exists k :: k in kinds && FirstBound(doc, ContainerKey(k)) == Some(i)
  }

  /** The binder of list `k` throws on `doc`: the container exists and the
      list fails to render. */
  predicate ListThrows(doc: seq<Element>, data: Json, k: ListKind)
  {
    FirstBound(doc, ContainerKey(k)).Some? && Render(k, Get(data, DataKey(k))) == Some(Thrown)
  }

  /** `after` holds list `k` as its binder writes it into `before`: the
      container's content is the rendered markup, or the container keeps its
      state when the list renders nothing. */
  predicate ListWritten(before: seq<Element>, after: seq<Element>, data: Json, k: ListKind)
    requires |after| == |before|
  {
    match FirstBound(before, ContainerKey(k))
    case None => true
    case Some(c) =>
      match Render(k, Get(data, DataKey(k)))
      case None => after[c] == before[c]
      case Some(Thrown) => true
      case Some(Ok(html)) => after[c] == before[c].(content := Markup(html))
  }

  /** The index in `kinds` of the first list binder that throws, `|kinds|`
      when none does. */
  function ThrowIndex(doc: seq<Element>, data: Json, kinds: seq<ListKind>): (n: nat)
    ensures n <= |kinds|
    ensures forall j :: 0 <= j < n ==> !ListThrows(doc, data, kinds[j])
    ensures n < |kinds| ==> ListThrows(doc, data, kinds[n])
    decreases |kinds|
  {
    if |kinds| == 0 || ListThrows(doc, data, kinds[0]) then 0
    else
      var n := 1 + ThrowIndex(doc, data, kinds[1..]);
      assert forall j :: 1 <= j < n ==> kinds[j] == kinds[1..][j - 1];
      n
  }

  /** Which binder throws depends on the `data-bind` attributes only. */
  lemma ThrowIndexSameBinds(a: seq<Element>, b: seq<Element>, data: Json, kinds: seq<ListKind>)
    requires forall key :: FirstBound(a, key) == FirstBound(b, key)
    ensures ThrowIndex(a, data, kinds) == ThrowIndex(b, data, kinds)
  {
    assert forall k :: ListThrows(a, data, k) == ListThrows(b, data, k);
  }

  /** The list binders in order; the first one that throws stops the rest.
      The pass throws exactly when some list would throw; every list before
      the throwing one is written into its container, and every element that
      is not the container of such a list, the containers of the throwing
      list and of the lists after it included, keeps its state. */
  function BindLists(doc: seq<Element>, data: Json, kinds: seq<ListKind>): (r: Bound)
    ensures |r.doc| == |doc|
    ensures forall i :: 0 <= i < |doc| ==> OnlyContentChanged(doc[i], r.doc[i])
    ensures r.threw <==> exists k :: k in kinds && ListThrows(doc, data, k)
    ensures forall k :: k in kinds[..ThrowIndex(doc, data, kinds)] ==> ListWritten(doc, r.doc, data, k)
    ensures forall i :: 0 <= i < |doc| && !IsContainer(doc, kinds[..ThrowIndex(doc, data, kinds)], i) ==>
              r.doc[i] == doc[i]
    decreases |kinds|
  {
    if |kinds| == 0 then Bound(doc, false)
    else
      var k0 := kinds[0];
      match BindList(doc, k0, Get(data, DataKey(k0)))
      case Thrown =>
        assert ListThrows(doc, data, k0);
        assert kinds[..ThrowIndex(doc, data, kinds)] == [];
        Bound(doc, true)
      case Ok(next) =>
        var r := BindLists(next, data, kinds[1..]);
        var m := ThrowIndex(next, data, kinds[1..]);
        ThrowIndexStep(doc, next, data, kinds);
        PrefixOfTail(kinds, m);
        ListsStep(doc, next, data, k0, kinds[1..][..m], r.doc);
        r
  }

  /** One step of `BindLists`: what the first binder writes, followed by
      what the binders of `later` write, is what binders `[k0] + later`
      promise. */
  lemma ListsStep(doc: seq<Element>, next: seq<Element>, data: Json, k0: ListKind, later: seq<ListKind>,
                  after: seq<Element>)
    requires BindList(doc, k0, Get(data, DataKey(k0))) == Ok(next)
    requires |after| == |next|
    requires forall k :: k in later ==> ListWritten(next, after, data, k)
    requires forall i :: 0 <= i < |next| && !IsContainer(next, later, i) ==> after[i] == next[i]
    ensures forall k :: k in [k0] + later ==> ListWritten(doc, after, data, k)
    ensures forall i :: 0 <= i < |doc| && !IsContainer(doc, [k0] + later, i) ==> after[i] == doc[i]
  {
    assert SameBinds(doc, next);
    FirstBoundSameBinds(doc, next);
    StepFrame(doc, next, k0, later, after);
    StepWritten(doc, next, data, k0, later, after);
  }

  /** When the first binder writes, the throwing binder of `kinds` is one
      further on than that of the rest. */
  lemma ThrowIndexStep(doc: seq<Element>, next: seq<Element>, data: Json, kinds: seq<ListKind>)
    requires |kinds| > 0
    requires BindList(doc, kinds[0], Get(data, DataKey(kinds[0]))) == Ok(next)
    ensures ThrowIndex(doc, data, kinds) == 1 + ThrowIndex(next, data, kinds[1..])
  {
    assert SameBinds(doc, next);
    FirstBoundSameBinds(doc, next);
    assert !ListThrows(doc, data, kinds[0]);
    ThrowIndexSameBinds(doc, next, data, kinds[1..]);
  }

  lemma PrefixOfTail(kinds: seq<ListKind>, m: nat)
    requires m < |kinds|
    ensures kinds[..1 + m] == [kinds[0]] + kinds[1..][..m]
  {
  }

  /** The frame half of `ListsStep`. */
  lemma StepFrame(doc: seq<Element>, next: seq<Element>, k0: ListKind, later: seq<ListKind>, after: seq<Element>)
    requires |next| == |doc| == |after|
    requires forall key :: FirstBound(doc, key) == FirstBound(next, key)
    requires forall i :: 0 <= i < |doc| && Some(i) != FirstBound(doc, ContainerKey(k0)) ==> next[i] == doc[i]
    requires forall i :: 0 <= i < |next| && !IsContainer(next, later, i) ==> after[i] == next[i]
    ensures forall i :: 0 <= i < |doc| && !IsContainer(doc, [k0] + later, i) ==> after[i] == doc[i]
  {
    assert forall k :: k in [k0] + later <==> k == k0 || k in later;
    forall i | 0 <= i < |doc| && !IsContainer(doc, [k0] + later, i)
      ensures after[i] == doc[i]
    {
      assert !IsContainer(next, later, i);
    }
  }

  /** The written half of `ListsStep`. */
  lemma StepWritten(doc: seq<Element>, next: seq<Element>, data: Json, k0: ListKind, later: seq<ListKind>,
                    after: seq<Element>)
    requires |next| == |doc| == |after|
    requires BindList(doc, k0, Get(data, DataKey(k0))) == Ok(next)
    requires forall key :: FirstBound(doc, key) == FirstBound(next, key)
    requires forall k :: k in later ==> ListWritten(next, after, data, k)
    requires forall i :: 0 <= i < |next| && !IsContainer(next, later, i) ==> after[i] == next[i]
    ensures forall k :: k in [k0] + later ==> ListWritten(doc, after, data, k)
  {
    forall k | k in [k0] + later ensures ListWritten(doc, after, data, k) {
      if k in later {
        assert ListWritten(next, after, data, k);
      } else {
        assert k == k0;
        match FirstBound(doc, ContainerKey(k))
        case None =>
        case Some(c) =>
          assert !IsContainer(next, later, c);
      }
    }
  }

  /** `bindHomeData(data)`: nothing for a missing or falsy payload; otherwise
      the bind pass, then the three lists. A `TypeError`, from a bound value
      `String` rejects or from a list binder, ends the call with the document
      as it stands: a throwing bind pass leaves every list unbound, and
      otherwise the lists before the throwing one are written over the bind
      pass's result and every other element keeps that result. */
  function BindHomeData(doc: seq<Element>, data: Option<Json>): (r: Bound)
    ensures data.None? || !Truthy(data.value) ==> r == Bound(doc, false)
    ensures |r.doc| == |doc|
    ensures forall i :: 0 <= i < |doc| ==>
              r.doc[i].tag == doc[i].tag && r.doc[i].href == doc[i].href && r.doc[i].bind == doc[i].bind
    ensures data.Some? && Truthy(data.value) ==>
              (r.threw <==> (exists i :: 0 <= i < |doc| && ElementThrows(doc[i], data.value))
                            || exists k :: k in ListOrder && ListThrows(doc, data.value, k))
    ensures data.Some? && Truthy(data.value) && BindPass(doc, data.value).threw ==>
              r.doc == BindPass(doc, data.value).doc
    ensures data.Some? && Truthy(data.value) && !BindPass(doc, data.value).threw ==>
              var pass, done := BindPass(doc, data.value).doc, ListOrder[..ThrowIndex(doc, data.value, ListOrder)];
              && (forall k :: k in done ==> ListWritten(pass, r.doc, data.value, k))
              && (forall i :: 0 <= i < |doc| && !IsContainer(doc, done, i) ==> r.doc[i] == pass[i])
  {
    if data.None? || !Truthy(data.value) then Bound(doc, false)
    else
      var pass := BindPass(doc, data.value);
      if pass.threw then pass
      else
        FirstBoundSameBinds(doc, pass.doc);
        ThrowIndexSameBinds(doc, pass.doc, data.value, ListOrder);
        assert forall k :: ListThrows(pass.doc, data.value, k) == ListThrows(doc, data.value, k);
        assert forall i :: IsContainer(pass.doc, ListOrder[..ThrowIndex(doc, data.value, ListOrder)], i) ==
                           IsContainer(doc, ListOrder[..ThrowIndex(doc, data.value, ListOrder)], i);
        BindLists(pass.doc, data.value, ListOrder)
  }

  // ---------------------------------------------------------------------
  // Page load

  /** The embedded `#home-data-template` element: absent, holding text that
      `JSON.parse` rejects, or holding a payload. */
  datatype Template = NoTemplate | Malformed | Template(payload: Json)

  /** `loadHomeData()` then `bindHomeData` on `DOMContentLoaded`. `live` is the
      decoded `/home` response, `None` when the request or decoding failed.
      On failure the template is used; a malformed template throws, which the
      listener catches, so nothing is bound. A `null` live payload is not a
      failure and binds nothing. */
  function LoadAndBind(doc: seq<Element>, live: Option<Json>, template: Template): (r: seq<Element>)
    ensures live.Some? ==> r == BindHomeData(doc, live).doc
    ensures live.None? && template.Template? ==> r == BindHomeData(doc, Some(template.payload)).doc
    ensures live.None? && !template.Template? ==> r == doc
  {
    var data: Result<Option<Json>> :=
      if live.Some? then Ok(live)
      else match template
        case NoTemplate => Ok(None)
        case Malformed => Thrown
        case Template(payload) => Ok(Some(payload));
    match data
    case Thrown => doc
    case Ok(d) => if d.Some? && Truthy(d.value) then BindHomeData(doc, d).doc else doc
  }

  // ---------------------------------------------------------------------
  // Properties of the bind pass.

  /** A bound element whose path does not resolve, and which no list binder
      uses as its container, keeps its state, whether or not the call
      throws. */
  lemma UnresolvedKeepsState(doc: seq<Element>, data: Option<Json>, i: nat)
    requires i < |doc|
    requires doc[i].bind.None? || data.None? || Path.GetNestedValue(data.value, doc[i].bind.value).None?
    requires forall k: ListKind :: FirstBound(doc, ContainerKey(k)) != Some(i)
    ensures BindHomeData(doc, data).doc[i] == doc[i]
  {
    if data.Some? && Truthy(data.value) && !BindPass(doc, data.value).threw {
      assert !IsContainer(doc, ListOrder[..ThrowIndex(doc, data.value, ListOrder)], i);
    }
  }

  /** A bound element whose path resolves to `v`, and which no list binder
      uses as its container: before the first bound element whose write
      throws, it ends up as `updateElement(element, v)` made it (and that
      write succeeds); from that element on it keeps its state. */
  lemma ResolvedIsUpdated(doc: seq<Element>, data: Json, i: nat, v: Json)
    requires i < |doc| && doc[i].bind.Some?
    requires Path.GetNestedValue(data, doc[i].bind.value) == Some(v)
    requires forall k: ListKind :: FirstBound(doc, ContainerKey(k)) != Some(i)
    ensures Truthy(data) && i < PassStop(doc, data) ==>
              UpdateElement(doc[i], v).Ok? && BindHomeData(doc, Some(data)).doc[i] == UpdateElement(doc[i], v).value
    ensures Truthy(data) && PassStop(doc, data) <= i ==> BindHomeData(doc, Some(data)).doc[i] == doc[i]
  {
    if Truthy(data) && !BindPass(doc, data).threw {
      assert !IsContainer(doc, ListOrder[..ThrowIndex(doc, data, ListOrder)], i);
    }
  }

  // ---------------------------------------------------------------------
  // Idempotence.

  /** Binding an element twice is binding it once. */
  lemma BindElementIdempotent(e: Element, data: Json)
    requires BindElement(e, data).Ok?
    ensures BindElement(BindElement(e, data).value, data) == BindElement(e, data)
  {
  }

  /** Re-binding an element whose content a list binder replaced afterwards
      either restores the bind-pass state or keeps the list markup. */
  lemma BindAfterListWrite(e: Element, data: Json, c: Content)
    requires BindElement(e, data).Ok?
    ensures var once := BindElement(e, data).value;
            var again := BindElement(once.(content := c), data);
            again == Ok(once) || again == Ok(once.(content := c))
  {
  }

  /** If `z` agrees element by element with `y` or with the result of the
      list binders on `y`, the list binders take `z` to the same result. */
  lemma {:induction false} ListsAbsorb(y: seq<Element>, z: seq<Element>, data: Json, kinds: seq<ListKind>)
    requires |z| == |y|
    requires forall i :: 0 <= i < |y| ==> z[i] == y[i] || z[i] == BindLists(y, data, kinds).doc[i]
    ensures BindLists(z, data, kinds) == BindLists(y, data, kinds)
    decreases |kinds|
  {
    var target := BindLists(y, data, kinds);
    assert SameBinds(y, z) by {
      forall i | 0 <= i < |y| ensures z[i].bind == y[i].bind {
        assert OnlyContentChanged(y[i], target.doc[i]);
      }
    }
    if |kinds| == 0 {
      assert z == y;
    } else {
      var k := kinds[0];
      var links := Get(data, DataKey(k));
      FirstBoundSameBinds(y, z);
      match BindList(y, k, links)
      case Thrown =>
        assert z == y;
      case Ok(ny) =>
        var nz := BindList(z, k, links).value;
        assert BindLists(y, data, kinds) == BindLists(ny, data, kinds[1..]);
        forall i | 0 <= i < |ny|
          ensures nz[i] == ny[i] || nz[i] == BindLists(ny, data, kinds[1..]).doc[i]
        {
          if Some(i) != FirstBound(y, ContainerKey(k)) {
            assert nz[i] == z[i] && ny[i] == y[i];
          }
        }
        ListsAbsorb(ny, nz, data, kinds[1..]);
    }
  }

  /** `bindHomeData` is idempotent: binding the same payload again leaves the
      document as the first call left it, and throws exactly when it did. */
  lemma BindHomeDataIdempotent(doc: seq<Element>, data: Option<Json>)
    ensures BindHomeData(BindHomeData(doc, data).doc, data) == BindHomeData(doc, data)
  {
    if data.Some? && Truthy(data.value) {
      var d := data.value;
      var pass := BindPass(doc, d);
      var first := BindHomeData(doc, data);
      var again := BindPass(first.doc, d);
      var n := PassStop(doc, d);
      PassStopSameBinds(doc, first.doc, d);
      if pass.threw {
        forall i | 0 <= i < |doc| ensures again.doc[i] == pass.doc[i] {
          if i < n {
            BindElementIdempotent(doc[i], d);
          }
        }
        assert again == pass;
      } else {
        var y, z := pass.doc, again.doc;
        assert first == BindLists(y, d, ListOrder);
        forall i | 0 <= i < |y|
          ensures z[i] == y[i] || z[i] == first.doc[i]
        {
          assert OnlyContentChanged(y[i], first.doc[i]);
          assert first.doc[i] == y[i].(content := first.doc[i].content);
          BindElementIdempotent(doc[i], d);
          BindAfterListWrite(doc[i], d, first.doc[i].content);
        }
        ListsAbsorb(y, z, d, ListOrder);
      }
    }
  }

  // ---------------------------------------------------------------------
  // Properties of the rendered lists.

  /** Concatenation without separators. */
  function Concat(parts: seq<string>): string
  {
    if |parts| == 0 then "" else parts[0] + Concat(parts[1..])
  }

  lemma {:induction false} JoinEmptyIsConcat(parts: seq<string>)
    ensures Strings.Join(parts, "") == Concat(parts)
    decreases |parts|
  {
    if |parts| > 1 {
      JoinEmptyIsConcat(parts[1..]);
      assert Concat(parts[1..]) == parts[1] + Concat(parts[2..]);
      assert parts[1..][1..] == parts[2..];
    }
  }

  /** The info and FAQ lists render as the in-order concatenation of one
      `<li>` per link, with nothing between them; an empty list renders as "". */
  lemma ItemListIsConcatenation(k: ListKind, links: seq<Json>)
    requires k != FooterLinks
    requires forall i :: 0 <= i < |links| ==> Renders(k, links[i])
    ensures Render(k, Some(Arr(links))) == Some(Ok(Concat(Items(k, links).value)))
    ensures links == [] ==> Render(k, Some(Arr(links))) == Some(Ok(""))
  {
    JoinEmptyIsConcat(Items(k, links).value);
  }

  /** The rendered markup of an array of links that render holds them in
      their order: the markup of link `i`, `ItemHtml(k, links[i])`, sits at its
      offset and is followed by exactly one separator, except the last, which
      ends the markup. */
  lemma LinksInOrder(k: ListKind, links: seq<Json>, i: nat)
    requires i < |links|
    requires forall j :: 0 <= j < |links| ==> Renders(k, links[j])
    ensures Render(k, Some(Arr(links))).Some? && Render(k, Some(Arr(links))).value.Ok?
    ensures var html := Render(k, Some(Arr(links))).value.value;
            var items := Items(k, links).value;
            && ItemHtml(k, links[i]) == Ok(items[i])
            && Strings.PlacedAt(html, items, Separator(k), i)
  {
    var items := Items(k, links).value;
    assert Render(k, Some(Arr(links))) == Some(Ok(Strings.Join(items, Separator(k))));
    Strings.JoinLayout(items, Separator(k), i);
  }

  /** A footer link whose action and title print, without a '|'. */
  predicate PipeFree(link: Json)
  {
    && Renders(FooterLinks, link)
    && '|' !in FieldText(link, "action").value
    && '|' !in FieldText(link, "title").value
  }

  lemma FooterItemPipeFree(link: Json)
    requires PipeFree(link)
    ensures ItemHtml(FooterLinks, link).Ok? && '|' !in ItemHtml(FooterLinks, link).value
  {
    var a, t := FieldText(link, "action").value, FieldText(link, "title").value;
    assert '|' !in "<a href=\"#\" data-action=\"";
    assert '|' !in "\">";
    assert '|' !in "</a>";
    assert ItemHtml(FooterLinks, link).value == "<a href=\"#\" data-action=\"" + a + "\">" + t + "</a>";
  }

  /** For n >= 1 footer links whose actions and titles print without a '|',
      the footer markup contains exactly n - 1 '|' characters: one per " | ". */
  lemma FooterSeparatorCount(links: seq<Json>)
    requires |links| >= 1
    requires forall i :: 0 <= i < |links| ==> PipeFree(links[i])
    ensures Render(FooterLinks, Some(Arr(links))).Some? && Render(FooterLinks, Some(Arr(links))).value.Ok?
    ensures Strings.CountChar(Render(FooterLinks, Some(Arr(links))).value.value, '|') == |links| - 1
  {
    var items := Items(FooterLinks, links).value;
    forall i | 0 <= i < |items| ensures '|' !in items[i] {
      FooterItemPipeFree(links[i]);
    }
    assert Strings.CountChar(" | ", '|') == 1 by {
      assert " | " == [' '] + "| ";
      assert "| " == ['|'] + " ";
    }
    Strings.JoinSeparatorCount(items, " | ", '|');
  }
}
