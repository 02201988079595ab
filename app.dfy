/** The application shell: the in-memory property list with its upsert and
    delete, the path/authentication routing, and the listing state the
    storefront renders from. */
module App {
  import opened JsValues
  import opened Types
  import opened Sequences
  import opened Listing
  import I18n
  import Chatbot

  // ------------------------------------------------------------ property list

  /** Some record of `props` carries `id` (`prev.find(p => p.id === id)`
      finds an object, which is truthy). */
  predicate HasId(props: seq<Property>, id: string) {
    exists q :: q in props && q.id == id
  }

  /** `prev.map(p => p.id === property.id ? property : p)`. */
  function ReplaceById(props: seq<Property>, p: Property): (r: seq<Property>)
    ensures |r| == |props|
    ensures forall i :: 0 <= i < |props| && props[i].id == p.id ==> r[i] == p
    ensures forall i :: 0 <= i < |props| && props[i].id != p.id ==> r[i] == props[i]
  {
    if props == [] then []
    else [if props[0].id == p.id then p else props[0]] + ReplaceById(props[1..], p)
  }

  /** `handleSaveProperty`: replace every record with the same id, or
      append when there is none. */
  function SaveProperty(props: seq<Property>, p: Property): (r: seq<Property>)
    ensures p in r
    ensures forall q :: q in r && q.id == p.id ==> q == p
    ensures HasId(props, p.id) ==> |r| == |props|
    ensures HasId(props, p.id) ==>
      forall i :: 0 <= i < |props| ==> r[i] == (if props[i].id == p.id then p else props[i])
    ensures !HasId(props, p.id) ==> r == props + [p]
  {
    if HasId(props, p.id) then
      var q :| q in props && q.id == p.id;
      var i :| 0 <= i < |props| && props[i] == q;
      assert ReplaceById(props, p)[i] == p;
      ReplaceById(props, p)
    else props + [p]
  }

  /** `handleDeleteProperty`: drop every record with that id. */
  function DeleteProperty(props: seq<Property>, id: string): (r: seq<Property>)
    ensures forall q :: q in r <==> q in props && q.id != id
    ensures forall q :: multiset(r)[q] == if q.id != id then multiset(props)[q] else 0
    ensures IsSubseq(r, props)
    ensures !HasId(r, id)
  {
    FilterIsSubseq(props, (q: Property) => q.id != id);
    Filter(props, (q: Property) => q.id != id)
  }

  /** Records with other ids keep their values and their order under a save. */
  lemma {:induction false} SaveKeepsOthers(props: seq<Property>, p: Property)
    ensures DeleteProperty(SaveProperty(props, p), p.id) == DeleteProperty(props, p.id)
  {
    var keep := (q: Property) => q.id != p.id;
    if HasId(props, p.id) {
      ReplaceKeepsOthers(props, p);
    } else {
      FilterAppend(props, [p], keep);
      assert Filter([p], keep) == [] by {
        assert [p][1..] == [];
      }
      assert Filter(props, keep) + [] == Filter(props, keep);
    }
  }

  lemma {:induction false} ReplaceKeepsOthers(props: seq<Property>, p: Property)
    ensures DeleteProperty(ReplaceById(props, p), p.id) == DeleteProperty(props, p.id)
  {
    var keep := (q: Property) => q.id != p.id;
    if props != [] {
      ReplaceKeepsOthers(props[1..], p);
      var r := ReplaceById(props, p);
      assert r[1..] == ReplaceById(props[1..], p);
    }
  }

  /** Saving the same record twice is the same as saving it once. */
  lemma {:induction false} SaveIdempotent(props: seq<Property>, p: Property)
    ensures SaveProperty(SaveProperty(props, p), p) == SaveProperty(props, p)
  {
    var once := SaveProperty(props, p);
    assert HasId(once, p.id);
    var twice := SaveProperty(once, p);
    assert |twice| == |once|;
    forall i | 0 <= i < |once| ensures twice[i] == once[i] {
      assert once[i] in once;
    }
  }

  /** After a save the record is found under its id; the ids present are the
      old ones plus the saved id. */
  lemma SaveIds(props: seq<Property>, p: Property, id: string)
    ensures HasId(SaveProperty(props, p), id) <==> HasId(props, id) || id == p.id
  {
    if HasId(props, id) && id != p.id {
      SaveKeepsId(props, p, id);
    }
    if HasId(SaveProperty(props, p), id) && id != p.id {
      SaveAddsNoId(props, p, id);
    }
  }

  lemma SaveKeepsId(props: seq<Property>, p: Property, id: string)
    requires HasId(props, id) && id != p.id
    ensures HasId(SaveProperty(props, p), id)
  {
    var r := SaveProperty(props, p);
    var q :| q in props && q.id == id;
    if HasId(props, p.id) {
      var i :| 0 <= i < |props| && props[i] == q;
      assert r[i] == q;
    } else {
      assert q in r;
    }
  }

  lemma SaveAddsNoId(props: seq<Property>, p: Property, id: string)
    requires HasId(SaveProperty(props, p), id) && id != p.id
    ensures HasId(props, id)
  {
    var r := SaveProperty(props, p);
    var q :| q in r && q.id == id;
    if HasId(props, p.id) {
      var i :| 0 <= i < |r| && r[i] == q;
      assert props[i] == q;
    } else {
      assert q in props + [p];
    }
  }

  /** Deleting after saving removes the saved record and leaves exactly the
      other records, in their order. */
  lemma DeleteAfterSave(props: seq<Property>, p: Property)
    ensures DeleteProperty(SaveProperty(props, p), p.id) == DeleteProperty(props, p.id)
    ensures p !in DeleteProperty(SaveProperty(props, p), p.id)
  {
    SaveKeepsOthers(props, p);
  }

  /** Deleting an id no record carries changes nothing. */
  lemma {:induction false} DeleteAbsent(props: seq<Property>, id: string)
    requires !HasId(props, id)
    ensures DeleteProperty(props, id) == props
  {
    if props != [] {
      assert props[0] in props;
      assert !HasId(props[1..], id) by {
        forall q | q in props[1..] ensures q.id != id {
          assert q in props;
        }
      }
      DeleteAbsent(props[1..], id);
      assert props == [props[0]] + props[1..];
    }
  }

  // ------------------------------------------------------------ routing

  datatype View = Public | Login | Admin

  /** The path that opens the back office. */
  const AdminPath := "/acceso-digital-osorio"

  /** `handlePathChange`: the back-office path shows the panel to an
      authenticated user and the login form to anyone else; every other
      path shows the storefront. */
  function ViewFor(path: string, authenticated: bool): (v: View)
    ensures v == Admin <==> path == AdminPath && authenticated
    ensures v == Login <==> path == AdminPath && !authenticated
    ensures v == Public <==> path != AdminPath
  {
    if path == AdminPath then (if authenticated then Admin else Login) else Public
  }

  /** The state held by the application component. The browser's location
      is the field `path`; the administrator credentials, which live in a
      module that is not part of this model, are fields fixed at
      construction. `chat` is the chat window the storefront renders while
      no property is open; the page owns its `isOpen` flag. */
  class AppState {
    var properties: seq<Property>
    var filters: Filters
    var sortBy: string
    var view: View
    var isAuthenticated: bool
    var path: string
    var isLoading: bool
    var selected: Option<Property>
    var chatbotOpen: bool
    const adminUser: string
    const adminPass: string
    const chat: Chatbot.ChatbotAura

    /** The view always matches the path and the authentication state: the
        path effect runs on mount and whenever `isAuthenticated` changes. */
    predicate Valid()
      reads this
    {
      view == ViewFor(path, isAuthenticated)
    }

    /** The chat window is on the page: past the splash screen, on the
        storefront, and with no property open in the detail dialog. */
    predicate ChatMounted()
      reads this
    {
      !isLoading && view == Public && selected.None?
    }

    /** The window shows the page's `isOpen` flag, and while it is not on
        the page it holds no transcript, no input and no waiting reply. */
    predicate ChatInSync()
      reads this, chat
    {
      && chat.isOpen == chatbotOpen
      && chat.Valid()
      && (!ChatMounted() ==> chat.messages == [] && chat.inputValue == "" && chat.pending == [])
    }

    /** How the window follows a change of the page: mounted afresh when it
        appears (greeting when open, else empty), emptied when it goes, and
        untouched otherwise. `wasMounted` is whether it was on the page
        before. */
    twostate predicate ChatFollows(wasMounted: bool)
      reads this, chat
    {
      && chat.language == old(chat.language)
      && if !wasMounted && ChatMounted() then
           && chat.isOpen == chatbotOpen && chat.messages == (if chatbotOpen then [chat.Greeting()] else [])
           && chat.inputValue == "" && chat.pending == []
         else if wasMounted && !ChatMounted() then
           && chat.isOpen == old(chat.isOpen) && chat.messages == []
           && chat.inputValue == "" && chat.pending == []
         else
           && chat.isOpen == old(chat.isOpen) && chat.messages == old(chat.messages)
           && chat.inputValue == old(chat.inputValue) && chat.pending == old(chat.pending)
    }

    /** Everything but the filter criteria is as before. */
    twostate predicate OnlyFiltersChanged()
      reads this
    {
      && properties == old(properties) && sortBy == old(sortBy) && view == old(view)
      && isAuthenticated == old(isAuthenticated) && path == old(path) && isLoading == old(isLoading)
      && selected == old(selected) && chatbotOpen == old(chatbotOpen)
    }

    /** Everything but the property list is as before. */
    twostate predicate OnlyPropertiesChanged()
      reads this
    {
      && filters == old(filters) && sortBy == old(sortBy) && view == old(view)
      && isAuthenticated == old(isAuthenticated) && path == old(path) && isLoading == old(isLoading)
      && selected == old(selected) && chatbotOpen == old(chatbotOpen)
    }

    /** Mounting: the initial state, then the path effect. The chat window
        is not on the page while the splash screen shows. */
    constructor(initial: seq<Property>, location: string, user: string, pass: string,
                tr: I18n.Translations, language: I18n.Language)
      ensures Valid() && ChatInSync()
      ensures properties == initial && filters == InitialFilters && sortBy == "default"
      ensures !isAuthenticated && path == location && isLoading
      ensures selected == None && !chatbotOpen
      ensures adminUser == user && adminPass == pass
      ensures fresh(chat) && chat.language == language && chat.messages == []
    {
      properties := initial;
      filters := InitialFilters;
      sortBy := "default";
      isAuthenticated := false;
      path := location;
      view := ViewFor(location, false);
      isLoading := true;
      selected := None;
      chatbotOpen := false;
      adminUser := user;
      adminPass := pass;
      chat := new Chatbot.ChatbotAura(tr, language);
    }

    /** Mounts or unmounts the chat window after a change of the page. */
    method SyncChat(wasMounted: bool)
      requires chat.Valid()
      modifies chat
      ensures ChatFollows(wasMounted)
      ensures chat.Valid()
    {
      if !wasMounted && ChatMounted() {
        chat.Mount(chatbotOpen);
      } else if wasMounted && !ChatMounted() {
        chat.Unmount();
      }
    }

    /** The splash screen reports that it has finished. */
    method FinishLoading()
      requires ChatInSync()
      modifies this, chat
      ensures !isLoading
      ensures properties == old(properties) && filters == old(filters) && sortBy == old(sortBy)
      ensures view == old(view) && isAuthenticated == old(isAuthenticated) && path == old(path)
      ensures selected == old(selected) && chatbotOpen == old(chatbotOpen)
      ensures ChatFollows(old(ChatMounted())) && ChatInSync()
    {
      var was := ChatMounted();
      isLoading := false;
      SyncChat(was);
    }

    /** `handlePathChange` on a `popstate` to `location`. */
    method HandlePathChange(location: string)
      requires ChatInSync()
      modifies this, chat
      ensures Valid()
      ensures path == location && view == ViewFor(location, isAuthenticated)
      ensures isAuthenticated == old(isAuthenticated) && isLoading == old(isLoading)
      ensures properties == old(properties) && filters == old(filters) && sortBy == old(sortBy)
      ensures selected == old(selected) && chatbotOpen == old(chatbotOpen)
      ensures ChatFollows(old(ChatMounted())) && ChatInSync()
    {
      var was := ChatMounted();
      path := location;
      view := ViewFor(location, isAuthenticated);
      SyncChat(was);
    }

    /** `handleLogin`: accept exactly the administrator credentials; a
        change of `isAuthenticated` re-runs the path effect. */
    method HandleLogin(user: string, pass: string) returns (ok: bool)
      requires Valid() && ChatInSync()
      modifies this, chat
      ensures Valid()
      ensures ok <==> user == adminUser && pass == adminPass
      ensures isAuthenticated == (old(isAuthenticated) || ok)
      ensures ok && path == AdminPath ==> view == Admin
      ensures !ok ==> view == old(view)
      ensures path == old(path) && isLoading == old(isLoading)
      ensures properties == old(properties) && filters == old(filters) && sortBy == old(sortBy)
      ensures selected == old(selected) && chatbotOpen == old(chatbotOpen)
      ensures ChatFollows(old(ChatMounted())) && ChatInSync()
    {
      ok := user == adminUser && pass == adminPass;
      if ok && !isAuthenticated {
        isAuthenticated := true;
        HandlePathChange(path);
      }
    }

    /** `handleLogout`: signed out, location `/`, storefront view. */
    method HandleLogout()
      requires ChatInSync()
      modifies this, chat
      ensures Valid()
      ensures !isAuthenticated && path == "/" && view == Public
      ensures isLoading == old(isLoading)
      ensures properties == old(properties) && filters == old(filters) && sortBy == old(sortBy)
      ensures selected == old(selected) && chatbotOpen == old(chatbotOpen)
      ensures ChatFollows(old(ChatMounted())) && ChatInSync()
    {
      var was := ChatMounted();
      isAuthenticated := false;
      path := "/";
      view := Public;
      SyncChat(was);
    }

    /** `setSelectedProperty(p)` from a card of the featured strip or the
        grid: the detail dialog opens and the chat window leaves the page. */
    method SelectProperty(p: Property)
      requires ChatInSync()
      modifies this, chat
      ensures selected == Some(p) && !ChatMounted()
      ensures properties == old(properties) && filters == old(filters) && sortBy == old(sortBy)
      ensures view == old(view) && isAuthenticated == old(isAuthenticated) && path == old(path)
      ensures isLoading == old(isLoading) && chatbotOpen == old(chatbotOpen)
      ensures ChatFollows(old(ChatMounted())) && ChatInSync()
    {
      var was := ChatMounted();
      selected := Some(p);
      SyncChat(was);
    }

    /** The detail dialog's `onClose`: nothing is selected, and on the
        storefront the chat window comes back, mounted afresh. */
    method ClosePropertyModal()
      requires ChatInSync()
      modifies this, chat
      ensures selected == None
      ensures ChatMounted() <==> !isLoading && view == Public
      ensures properties == old(properties) && filters == old(filters) && sortBy == old(sortBy)
      ensures view == old(view) && isAuthenticated == old(isAuthenticated) && path == old(path)
      ensures isLoading == old(isLoading) && chatbotOpen == old(chatbotOpen)
      ensures ChatFollows(old(ChatMounted())) && ChatInSync()
    {
      var was := ChatMounted();
      selected := None;
      SyncChat(was);
    }

    /** `setIsChatbotOpen`, the window's toggle, which exists only while the
        window is on the page. */
    method SetChatbotOpen(open: bool)
      requires ChatMounted() && ChatInSync()
      modifies this, chat
      ensures chatbotOpen == open && chat.isOpen == open
      ensures chat.messages == if open && !old(chatbotOpen) then [old(chat.Greeting())] else old(chat.messages)
      ensures chat.language == old(chat.language) && chat.inputValue == old(chat.inputValue)
      ensures chat.pending == old(chat.pending)
      ensures properties == old(properties) && filters == old(filters) && sortBy == old(sortBy)
      ensures view == old(view) && isAuthenticated == old(isAuthenticated) && path == old(path)
      ensures isLoading == old(isLoading) && selected == old(selected)
      ensures ChatInSync()
    {
      chatbotOpen := open;
      chat.SetOpen(open);
    }

    /** `handleSaveProperty`, the panel's `onSave`. */
    method HandleSaveProperty(p: Property)
      modifies this
      ensures properties == SaveProperty(old(properties), p)
      ensures OnlyPropertiesChanged()
    {
      properties := SaveProperty(properties, p);
    }

    /** `handleDeleteProperty`, the list's `onDelete`. */
    method HandleDeleteProperty(id: string)
      modifies this
      ensures properties == DeleteProperty(old(properties), id)
      ensures OnlyPropertiesChanged()
    {
      properties := DeleteProperty(properties, id);
    }

    /** `setFilters`, the setter the filter bar and the filter dialog call. */
    method SetFilters(f: Filters)
      modifies this
      ensures filters == f && OnlyFiltersChanged()
    {
      filters := f;
    }

    /** `setSortBy`, from the grid's sort menu. */
    method SetSortBy(option: string)
      modifies this
      ensures sortBy == option
      ensures properties == old(properties) && filters == old(filters) && view == old(view)
      ensures isAuthenticated == old(isAuthenticated) && path == old(path) && isLoading == old(isLoading)
      ensures selected == old(selected) && chatbotOpen == old(chatbotOpen)
    {
      sortBy := option;
    }

    /** The grid the storefront renders from the current state. */
    method Grid() returns (r: seq<Property>)
      ensures r == SortForView(FilteredProperties(properties, filters), sortBy)
      ensures forall p :: p in r ==> p in properties && p.estado_publicacion == Publicado && !p.es_destacado
    {
      r := SortedAndFilteredProperties(properties, filters, sortBy);
      SortIsPermutation(FilteredProperties(properties, filters), sortBy);
      forall p | p in r ensures p in FilteredProperties(properties, filters) {
        assert p in multiset(r);
      }
    }
  }

  /** Only an authenticated user ever sees the back office. */
  lemma AdminViewNeedsAuthentication(app: AppState)
    requires app.Valid()
    ensures app.view == Admin ==> app.isAuthenticated && app.path == AdminPath
    ensures app.view == Login ==> !app.isAuthenticated
  {
  }
}
