/** `HomeActionHandler`: the delegated click listener, the `handleAction`
    routing table and the `handleSearch` empty-query guard. */
module Actions {
  import opened Maybe
  import Strings

  /** What a routed action does. The handlers behind these effects (network
      calls, the login popup, the file picker) are not modelled. */
  datatype Effect =
    | NoEffect
    | Search(query: string)
    | ToggleAdvancedSearch
    | TriggerImageUpload
    | CloseBanner
    | ChangeLanguage(lang: string)
    | ShowLoginPopup

  /** The eleven action names that open the login popup. */
  const LoginActions: set<string> :=
    {"view-guide", "view-article", "view-faq", "view-pricing", "view-partnership",
     "view-announcements", "view-disclaimer", "saved-trademarks", "tracked-trademarks",
     "pricing", "login"}

  /** Every action name the switch has a case for. */
  const RoutedActions: set<string> :=
    LoginActions + {"search", "advanced-search", "upload-image", "close-banner", "change-language"}

  /** `handleAction(action, element)`. `dataLang` is the element's `data-lang`
      attribute and `searchInput` the value of `.search-box input`, when those
      exist. */
  function HandleAction(action: string, dataLang: Option<string>, searchInput: Option<string>): (r: Effect)
    ensures r == ShowLoginPopup <==> action in LoginActions
    ensures action !in RoutedActions ==> r == NoEffect
    ensures r.Search? <==> action == "search" && searchInput.Some?
    ensures r.Search? ==> r.query == Strings.Trim(searchInput.value)
    ensures r.ChangeLanguage? <==> action == "change-language" && dataLang.Some? && dataLang.value != ""
    ensures r.ChangeLanguage? ==> r.lang == dataLang.value
    ensures r == ToggleAdvancedSearch <==> action == "advanced-search"
    ensures r == TriggerImageUpload <==> action == "upload-image"
    ensures r == CloseBanner <==> action == "close-banner"
  {
    if action == "search" then
      if searchInput.Some? then Search(Strings.Trim(searchInput.value)) else NoEffect
    else if action == "advanced-search" then ToggleAdvancedSearch
    else if action == "upload-image" then TriggerImageUpload
    else if action == "close-banner" then CloseBanner
    else if action == "change-language" then
      if dataLang.Some? && dataLang.value != "" then ChangeLanguage(dataLang.value) else NoEffect
    else if || action == "view-guide" || action == "view-article" || action == "view-faq"
            || action == "view-pricing" || action == "view-partnership"
            || action == "view-announcements" || action == "view-disclaimer"
            || action == "saved-trademarks" || action == "tracked-trademarks"
            || action == "pricing" || action == "login" then
      ShowLoginPopup
    else NoEffect
  }

  /** An element on the path from the click target up to the document root,
      with its `data-action` and `data-lang` attributes. */
  datatype Node = Node(action: Option<string>, lang: Option<string>)

  function ClosestFrom(path: seq<Node>, i: nat): (r: Option<nat>)
    requires i <= |path|
    ensures r.Some? ==> i <= r.value < |path| && path[r.value].action.Some?
    ensures r.Some? ==> forall j :: i <= j < r.value ==> path[j].action.None?
    ensures r.None? ==> forall j :: i <= j < |path| ==> path[j].action.None?
    decreases |path| - i
  {
    if i == |path| then None
    else if path[i].action.Some? then Some(i)
    else ClosestFrom(path, i + 1)
  }

  /** `target.closest('[data-action]')`: the innermost element on the path
      (the target first) that carries a `data-action` attribute. */
  function Closest(path: seq<Node>): (r: Option<nat>)
    ensures r.Some? ==> r.value < |path| && path[r.value].action.Some?
    ensures r.Some? ==> forall j :: 0 <= j < r.value ==> path[j].action.None?
    ensures r.None? ==> forall j :: 0 <= j < |path| ==> path[j].action.None?
  {
    ClosestFrom(path, 0)
  }

  /** The document-level click listener: route the closest element's action
      when it is a non-empty string. A click with no `data-action` on its path
      does nothing; any effect comes from the innermost element that carries
      one. */
  function OnClick(path: seq<Node>, searchInput: Option<string>): (r: Effect)
    ensures (forall j :: 0 <= j < |path| ==> path[j].action.None?) ==> r == NoEffect
    ensures r != NoEffect ==>
              exists i :: && 0 <= i < |path| && path[i].action.Some? && path[i].action.value != ""
                          && (forall j :: 0 <= j < i ==> path[j].action.None?)
                          && r == HandleAction(path[i].action.value, path[i].lang, searchInput)
  {
    match Closest(path)
    case None => NoEffect
    case Some(i) =>
      var action := path[i].action.value;
      if action == "" then NoEffect else HandleAction(action, path[i].lang, searchInput)
  }

  /** The innermost action wins: a click on a path whose `i`-th element is
      the first one carrying `data-action` is routed with that element's name
      and `data-lang`, whatever its ancestors carry. */
  lemma ClosestActionWins(path: seq<Node>, i: nat, searchInput: Option<string>)
    requires i < |path| && path[i].action.Some? && path[i].action.value != ""
    requires forall j :: 0 <= j < i ==> path[j].action.None?
    ensures OnClick(path, searchInput) == HandleAction(path[i].action.value, path[i].lang, searchInput)
  {
  }

  // ---------------------------------------------------------------------
  // handleSearch

  const EmptyQueryMessage: string := "Vui lòng nhập từ khóa tìm kiếm"

  /** What `handleSearch(query)` does before any network call. */
  datatype SearchStep = Notify(message: string) | CallSearchApi(query: string)

  /** `handleSearch(query)`: an empty query is refused with an error
      notification and no API call. */
  function HandleSearch(query: string): (r: SearchStep)
    ensures r.CallSearchApi? <==> query != ""
    ensures r.CallSearchApi? ==> r.query == query
    ensures r.Notify? ==> r.message == EmptyQueryMessage
  {
    if query == "" then Notify(EmptyQueryMessage) else CallSearchApi(query)
  }

  /** Clicking `.search-btn`: the input's value is trimmed first, so a value
      made only of white space never reaches the API, and any other value
      reaches it trimmed. */
  function SearchButton(inputValue: string): (r: SearchStep)
    ensures r.Notify? <==> Strings.AllSpace(inputValue)
    ensures r.Notify? ==> r.message == EmptyQueryMessage
    ensures r.CallSearchApi? ==> r.query == Strings.Trim(inputValue)
  {
    HandleSearch(Strings.Trim(inputValue))
  }

  /** A keypress in the search input: only Enter searches, and it searches
      exactly as the button does. */
  function SearchKeypress(key: string, inputValue: string): (r: Option<SearchStep>)
    ensures key != "Enter" ==> r.None?
    ensures key == "Enter" ==> r == Some(SearchButton(inputValue))
  {
    if key == "Enter" then Some(HandleSearch(Strings.Trim(inputValue))) else None
  }

  /** The `search` action, the button and Enter all search the same way. */
  lemma SearchActionIsButton(lang: Option<string>, inputValue: string)
    ensures HandleAction("search", lang, Some(inputValue)) == Search(Strings.Trim(inputValue))
    ensures HandleSearch(HandleAction("search", lang, Some(inputValue)).query) == SearchButton(inputValue)
  {
  }
}
