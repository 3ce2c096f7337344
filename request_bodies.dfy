/** The request bodies of the `search_notion` and `create_subpage` tools:
    dictionaries into which optional arguments are inserted one by one. */
module RequestBodies {
  import opened Wrappers
  import Blocks

  /** A JSON value as the tools pass it on. */
  datatype Json =
    | JNull
    | JBool(b: bool)
    | JNum(n: int)
    | JStr(s: string)
    | JList(items: seq<Json>)
    | JObj(fields: map<string, Json>)

  /** Python truthiness: `None`, `False`, `0` and empty strings, lists and
      dictionaries are false. */
  predicate Truthy(v: Json) {
    match v
    case JNull => false
    case JBool(b) => b
    case JNum(n) => n != 0
    case JStr(s) => s != []
    case JList(items) => items != []
    case JObj(fields) => fields != map[]
  }

  type Body = map<string, Json>

  // ---------------------------------------------------------------- search

  /** The arguments of `search_notion`. */
  datatype SearchArgs = SearchArgs(
    query: string,
    sort: Option<map<string, Json>>,
    filter: Option<map<string, Json>>,
    startCursor: Option<string>,
    pageSize: Option<int>)

  /** The body `search_notion` posts: `query` always, and each optional
      argument under its own key exactly when it is not `None`. */
  function SearchBody(args: SearchArgs): Body {
    var b0 := map["query" := JStr(args.query)];
    var b1 := if args.sort.Some? then b0["sort" := JObj(args.sort.value)] else b0;
    var b2 := if args.filter.Some? then b1["filter" := JObj(args.filter.value)] else b1;
    var b3 := if args.startCursor.Some? then b2["start_cursor" := JStr(args.startCursor.value)] else b2;
    if args.pageSize.Some? then b3["page_size" := JNum(args.pageSize.value)] else b3
  }

  /** The request `search_notion` sends: `POST search` with the body built
      key by key as the tool does. */
  method SearchNotion(args: SearchArgs) returns (request: Blocks.Request<Body>)
    ensures request.path == "search" && request.verb == "POST"
    ensures request.body == SearchBody(args)
  {
    var body := map["query" := JStr(args.query)];
    if args.sort.Some? {
      body := body["sort" := JObj(args.sort.value)];
    }
    if args.filter.Some? {
      body := body["filter" := JObj(args.filter.value)];
    }
    if args.startCursor.Some? {
      body := body["start_cursor" := JStr(args.startCursor.value)];
    }
    if args.pageSize.Some? {
      body := body["page_size" := JNum(args.pageSize.value)];
    }
    request := Blocks.Request("search", "POST", body);
  }

  /** Reads a dictionary-valued key back; absent when the key is. */
  function ObjAt(body: Body, key: string): Option<map<string, Json>> {
    if key in body && body[key].JObj? then Some(body[key].fields) else None
  }

  function StrAt(body: Body, key: string): Option<string> {
    if key in body && body[key].JStr? then Some(body[key].s) else None
  }

  function NumAt(body: Body, key: string): Option<int> {
    if key in body && body[key].JNum? then Some(body[key].n) else None
  }

  /** How the service reads a search body. */
  function ReadSearch(body: Body): Option<SearchArgs> {
    match StrAt(body, "query")
    case None => None
    case Some(q) =>
      Some(SearchArgs(q, ObjAt(body, "sort"), ObjAt(body, "filter"),
                      StrAt(body, "start_cursor"), NumAt(body, "page_size")))
  }

  /** Nothing is lost: the body holds exactly the keys of the given
      arguments, and reading it gives the arguments back, including
      optional values that are present but empty (`{}`, `""`, `0`). */
  lemma SearchRoundTrip(args: SearchArgs)
    ensures SearchBody(args).Keys ==
      {"query"} +
      (if args.sort.Some? then {"sort"} else {}) +
      (if args.filter.Some? then {"filter"} else {}) +
      (if args.startCursor.Some? then {"start_cursor"} else {}) +
      (if args.pageSize.Some? then {"page_size"} else {})
    ensures ReadSearch(SearchBody(args)) == Some(args)
  {
  }

  // ---------------------------------------------------------- create_subpage

  /** The arguments of `create_subpage`. */
  datatype SubpageArgs = SubpageArgs(
    pageId: string,
    title: string,
    icon: Option<map<string, Json>>,
    cover: Option<map<string, Json>>,
    children: Option<seq<Json>>)

  /** `{"type": "page_id", "page_id": page_id}` */
  function Parent(pageId: string): Json {
    JObj(map["type" := JStr("page_id"), "page_id" := JStr(pageId)])
  }

  /** `{"title": [{"type": "text", "text": {"content": title}}]}` */
  function TitleProperties(title: string): Json {
    JObj(map["title" := JList([JObj(map["type" := JStr("text"),
                                        "text" := JObj(map["content" := JStr(title)])])])])
  }

  /** The body `create_subpage` posts: `parent` and `properties` always,
      and `icon`, `cover` and `children` only when they are truthy. */
  function SubpageBody(args: SubpageArgs): Body {
    var b0 := map["parent" := Parent(args.pageId), "properties" := TitleProperties(args.title)];
    var b1 := if args.icon.Some? && Truthy(JObj(args.icon.value)) then b0["icon" := JObj(args.icon.value)] else b0;
    var b2 := if args.cover.Some? && Truthy(JObj(args.cover.value)) then b1["cover" := JObj(args.cover.value)] else b1;
    if args.children.Some? && Truthy(JList(args.children.value)) then b2["children" := JList(args.children.value)] else b2
  }

  /** The request `create_subpage` sends: `POST pages` with the body built
      key by key as the tool does; each test is Python truthiness of the
      argument. */
  method CreateSubpage(args: SubpageArgs) returns (request: Blocks.Request<Body>)
    ensures request.path == "pages" && request.verb == "POST"
    ensures request.body == SubpageBody(args)
  {
    var parent := JObj(map["type" := JStr("page_id"), "page_id" := JStr(args.pageId)]);
    var properties := JObj(map["title" := JList([JObj(map["type" := JStr("text"),
                                                           "text" := JObj(map["content" := JStr(args.title)])])])]);
    var body := map["parent" := parent, "properties" := properties];
    if args.icon.Some? && Truthy(JObj(args.icon.value)) {
      body := body["icon" := JObj(args.icon.value)];
    }
    if args.cover.Some? && Truthy(JObj(args.cover.value)) {
      body := body["cover" := JObj(args.cover.value)];
    }
    if args.children.Some? && Truthy(JList(args.children.value)) {
      body := body["children" := JList(args.children.value)];
    }
    request := Blocks.Request("pages", "POST", body);
  }

  /** An optional dictionary after the truthiness test: an empty one is
      dropped like `None`. */
  function KeptObj(o: Option<map<string, Json>>): Option<map<string, Json>> {
    if o.Some? && Truthy(JObj(o.value)) then o else None
  }

  function KeptList(o: Option<seq<Json>>): Option<seq<Json>> {
    if o.Some? && Truthy(JList(o.value)) then o else None
  }

  /** Reads the page id and the title back from `parent` and `properties`. */
  function ReadParent(v: Json): Option<string> {
    if v.JObj? && "page_id" in v.fields && v.fields["page_id"].JStr? then Some(v.fields["page_id"].s)
    else None
  }

  function ReadTitle(v: Json): Option<string> {
    if v.JObj? && "title" in v.fields && v.fields["title"].JList? && |v.fields["title"].items| == 1 then
      var item := v.fields["title"].items[0];
      if item.JObj? && "text" in item.fields && item.fields["text"].JObj? &&
         "content" in item.fields["text"].fields && item.fields["text"].fields["content"].JStr?
      then Some(item.fields["text"].fields["content"].s)
      else None
    else None
  }

  /** How the service reads a page-creation body. */
  function ReadSubpage(body: Body): Option<SubpageArgs> {
    if "parent" in body && "properties" in body then
      match ReadParent(body["parent"])
      case None => None
      case Some(pageId) =>
        match ReadTitle(body["properties"])
        case None => None
        case Some(title) =>
          var children := if "children" in body && body["children"].JList? then Some(body["children"].items) else None;
          Some(SubpageArgs(pageId, title, ObjAt(body, "icon"), ObjAt(body, "cover"), children))
    else None
  }

  /** Reading the body back gives the page id, the title and every truthy
      optional argument; an empty `icon`, `cover` or `children` reads back
      as absent, exactly as if it had not been given. */
  lemma SubpageRoundTrip(args: SubpageArgs)
    ensures ReadSubpage(SubpageBody(args)) ==
      Some(SubpageArgs(args.pageId, args.title, KeptObj(args.icon), KeptObj(args.cover), KeptList(args.children)))
  {
  }

  /** The two builders differ on empty values: `search_notion` sends an
      empty `sort` dictionary, `create_subpage` drops an empty `icon`. */
  lemma EmptyValuesDiffer(args: SearchArgs, sub: SubpageArgs)
    requires args.sort == Some(map[]) && sub.icon == Some(map[])
    ensures "sort" in SearchBody(args) && SearchBody(args)["sort"] == JObj(map[])
    ensures "icon" !in SubpageBody(sub)
  {
  }
}
