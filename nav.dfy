/**
 * The documentation site's navigation: the topic and subtopic tables, the
 * per-topic subtopic lists with their relative links, the navigation built
 * from them, and the click handler that loads a subtopic page into the
 * content frame.
 */
module DocNav {
  import opened Options
  import opened Filtering
  import opened PathSegments

  datatype Topic = Topic(id: string, title: string)
  datatype Subtopic = Subtopic(id: string, topicId: string, title: string, fileName: string)

  const Topics: seq<Topic> := [
    Topic("web", "Web"),
    Topic("javascript", "JavaScript"),
    Topic("typescript", "TypeScript"),
    Topic("react-js", "React.js")
  ]

  const Subtopics: seq<Subtopic> := [
    Subtopic("web-browser-work", "web", "browser work", "browser-work.html"),
    Subtopic("javascript-data-types", "javascript", "data types", "data-types.html"),
    Subtopic("javascript-proto", "javascript", "prototype vs proto", "prototype-proto.html"),
    Subtopic("javascript-this", "javascript", "this", "this.html"),
    Subtopic("javascript-closures", "javascript", "closures", "closures.html"),
    Subtopic("javascript-hoisting", "javascript", "hoisting", "hoisting.html"),
    Subtopic("javascript-event-phases", "javascript", "event phases", "event-phases.html"),
    Subtopic("javascript-currying", "javascript", "currying", "currying.html"),
    Subtopic("javascript-recusion", "javascript", "recursion", "recursion.html"),
    Subtopic("javascript-promises", "javascript", "data types", "data-types.html"),
    Subtopic("javascript-generators", "javascript", "generators", "generators.html"),
    Subtopic("javascript-event-loop", "javascript", "event loop", "event-loop.html"),
    Subtopic("javascript-garbage-collector", "javascript", "garbage collector", "garbage-collector.html"),
    Subtopic("react-js-life-cycle", "react-js", "life cycle", "life-cycle-react-js.html"),
    Subtopic("react-js-hooks", "react-js", "hooks", "hooks-react-js.html"),
    Subtopic("react-js-key-prop", "react-js", "key prop", "data-types.html"),
    Subtopic("react-js-hooks", "react-js", "hooks", "data-types.html"),
    Subtopic("react-js-patterns", "react-js", "patterns", "patterns.html"),
    Subtopic("typescript-common-types", "typescript", "common types", "common-types.html"),
    Subtopic("typescript-type-interface", "typescript", "type vs interface", "type-interface.html"),
    Subtopic("typescript-generics", "typescript", "generics", "generics.html"),
    Subtopic("typescript-utility-types", "typescript", "utility types", "utility-types.html"),
    Subtopic("typescript-type-guard", "typescript", "type guards", "type-guards.html"),
    Subtopic("typescript-maped-type", "typescript", "maped types", "maped-types.html")
  ]

  // ---------------------------------------------------------------------
  // Subtopic selection

  /** The test the subtopic loop applies: the entry belongs to `topicId`. */
  function BelongsTo(topicId: string): Subtopic -> bool
  {
    (s: Subtopic) => s.topicId == topicId
  }

  /** The subtopics of one topic, in table order. */
  function SubtopicsOf(subtopics: seq<Subtopic>, topicId: string): seq<Subtopic>
  {
    Filter(subtopics, BelongsTo(topicId))
  }

  /** A subtopic is listed under a topic exactly when its `topicId` names that topic. */
  lemma SubtopicsOfMembership(subtopics: seq<Subtopic>, topicId: string, s: Subtopic)
    ensures s in SubtopicsOf(subtopics, topicId) <==> s in subtopics && s.topicId == topicId
  {
    FilterMembership(subtopics, BelongsTo(topicId), s);
  }

  /** Each subtopic of the topic is listed as often as it occurs in the table: duplicates are kept. */
  lemma SubtopicsOfCounts(subtopics: seq<Subtopic>, topicId: string, s: Subtopic)
    ensures multiset(SubtopicsOf(subtopics, topicId))[s] ==
            if s.topicId == topicId then multiset(subtopics)[s] else 0
  {
    FilterMultiset(subtopics, BelongsTo(topicId), s);
  }

  /** The list for a table with one more entry at the end: that entry is listed last, or not at all. */
  lemma SubtopicsOfSnoc(subtopics: seq<Subtopic>, topicId: string, s: Subtopic)
    ensures SubtopicsOf(subtopics + [s], topicId) ==
            SubtopicsOf(subtopics, topicId) + (if s.topicId == topicId then [s] else [])
  {
    FilterAppend(subtopics, [s], BelongsTo(topicId));
    assert [s][1..] == [];
  }

  /** Two different entries of a topic that share an id are both listed, at different positions. */
  lemma DuplicateIdsKept(subtopics: seq<Subtopic>, topicId: string, a: Subtopic, b: Subtopic)
    requires a in subtopics && b in subtopics && a != b
    requires a.topicId == topicId && b.topicId == topicId && a.id == b.id
    ensures exists i, j :: (0 <= i < j < |SubtopicsOf(subtopics, topicId)| &&
      SubtopicsOf(subtopics, topicId)[i].id == a.id &&
      SubtopicsOf(subtopics, topicId)[j].id == a.id)
  {
    var list := SubtopicsOf(subtopics, topicId);
    SubtopicsOfMembership(subtopics, topicId, a);
    SubtopicsOfMembership(subtopics, topicId, b);
    var i :| 0 <= i < |list| && list[i] == a;
    var j :| 0 <= j < |list| && list[j] == b;
    if j < i {
      assert 0 <= j < i < |list| && list[j].id == a.id && list[i].id == a.id;
    } else {
      assert 0 <= i < j < |list| && list[i].id == a.id && list[j].id == a.id;
    }
  }

  /**
   * In the site's own table, the two React.js entries that share the id
   * "react-js-hooks" (they differ in file) are both listed.
   */
  lemma ReactListKeepsDuplicateIds()
    ensures exists i, j :: (0 <= i < j < |SubtopicsOf(Subtopics, "react-js")| &&
      SubtopicsOf(Subtopics, "react-js")[i].id == "react-js-hooks" &&
      SubtopicsOf(Subtopics, "react-js")[j].id == "react-js-hooks")
  {
    var first, second := Subtopics[14], Subtopics[16];
    assert first.fileName != second.fileName;
    DuplicateIdsKept(Subtopics, "react-js", first, second);
  }

  // ---------------------------------------------------------------------
  // Links

  /**
   * The relative link of a subtopic page: from a page under a `topics`
   * directory the sibling topic directory is one level up; from anywhere
   * else the link goes through `doc/topics`.
   */
  function LinkPath(pathname: string, topicDir: string, name: string): string
  {
    if HasSegment(pathname, "topics") then "../" + topicDir + "/" + name
    else "../doc/topics/" + topicDir + "/" + name
  }

  /** The pieces of the link: up one level, then (outside `topics`) `doc/topics`, then the directory and file. */
  lemma LinkPathPieces(pathname: string, topicDir: string, name: string)
    requires NoSlash(topicDir) && NoSlash(name)
    ensures Split(LinkPath(pathname, topicDir, name)) ==
            if HasSegment(pathname, "topics") then ["..", topicDir, name]
            else ["..", "doc", "topics", topicDir, name]
  {
    if HasSegment(pathname, "topics") {
      ShortLinkPieces(topicDir, name);
    } else {
      LongLinkPieces(topicDir, name);
    }
  }

  lemma ShortLinkPieces(topicDir: string, name: string)
    requires NoSlash(topicDir) && NoSlash(name)
    ensures Split("../" + topicDir + "/" + name) == ["..", topicDir, name]
  {
    JoinThree("..", topicDir, name);
    assert ".." + "/" == "../";
    SplitJoin(["..", topicDir, name]);
  }

  lemma LongLinkPieces(topicDir: string, name: string)
    requires NoSlash(topicDir) && NoSlash(name)
    ensures Split("../doc/topics/" + topicDir + "/" + name) == ["..", "doc", "topics", topicDir, name]
  {
    var tail := Join(["topics", topicDir, name]);
    JoinThree("topics", topicDir, name);
    assert tail == "topics/" + topicDir + "/" + name by {
      assert "topics" + "/" == "topics/";
    }
    var middle := ["doc", "topics", topicDir, name];
    JoinCons("doc", ["topics", topicDir, name]);
    assert middle == ["doc"] + ["topics", topicDir, name];
    var long := ["..", "doc", "topics", topicDir, name];
    JoinCons("..", middle);
    assert long == [".."] + middle;
    assert Join(long) == ".." + "/" + ("doc" + "/" + tail);
    assert ".." + "/" + ("doc" + "/" + tail) == "../doc/" + tail;
    assert "../doc/" + ("topics/" + topicDir + "/" + name) == "../doc/topics/" + topicDir + "/" + name;
    SplitJoin(long);
  }

  /** Joining three pieces. */
  lemma JoinThree(a: string, b: string, c: string)
    ensures Join([a, b, c]) == a + "/" + b + "/" + c
  {
    JoinCons(b, [c]);
    assert [b, c] == [b] + [c];
    JoinCons(a, [b, c]);
    assert [a, b, c] == [a] + [b, c];
  }

  /** Splitting three slash-free pieces joined by slashes. */
  lemma SplitThree(a: string, b: string, c: string)
    requires NoSlash(a) && NoSlash(b) && NoSlash(c)
    ensures Split(a + "/" + b + "/" + c) == [a, b, c]
  {
    JoinThree(a, b, c);
    SplitJoin([a, b, c]);
  }

  /** An exact `topics` piece is found. */
  lemma TopicsPieceMatches()
    ensures HasSegment("/topics/web", "topics")
  {
    assert "/topics/web" == "" + "/" + "topics" + "/" + "web";
    SplitThree("", "topics", "web");
    SegmentIsWholePiece("/topics/web", "topics");
    assert Split("/topics/web")[1] == "topics";
  }

  /** Empty pieces from trailing or doubled slashes do not hide a `topics` piece. */
  lemma TopicsBeforeEmptyPiecesMatches()
    ensures HasSegment("topics//", "topics")
  {
    assert "topics//" == "topics" + "/" + "" + "/" + "";
    SplitThree("topics", "", "");
    SegmentIsWholePiece("topics//", "topics");
    assert Split("topics//")[0] == "topics";
  }

  /** A piece that merely starts with `topics` does not count. */
  lemma LongerPieceDoesNotMatch()
    ensures !HasSegment("/topicsX/web", "topics")
  {
    assert "/topicsX/web" == "" + "/" + "topicsX" + "/" + "web";
    SplitThree("", "topicsX", "web");
    SegmentIsWholePiece("/topicsX/web", "topics");
    assert |"topicsX"| != |"topics"| && |"web"| != |"topics"|;
  }

  datatype Link = Link(href: string, text: string)

  /** The list entry of one subtopic: its link and its label. */
  function SubtopicLink(s: Subtopic, pathname: string): Link
  {
    Link(LinkPath(pathname, s.topicId, s.fileName), s.title)
  }

  /** The entries for a sequence of subtopics, in order. */
  function Links(subtopics: seq<Subtopic>, pathname: string): (r: seq<Link>)
    ensures |r| == |subtopics|
    ensures forall k :: 0 <= k < |r| ==> r[k] == SubtopicLink(subtopics[k], pathname)
  {
    seq(|subtopics|, k requires 0 <= k < |subtopics| => SubtopicLink(subtopics[k], pathname))
  }

  /** The entries of two runs of subtopics are the entries of the first run, then those of the second. */
  lemma LinksAppend(a: seq<Subtopic>, b: seq<Subtopic>, pathname: string)
    ensures Links(a + b, pathname) == Links(a, pathname) + Links(b, pathname)
  {
    var l, la, lb := Links(a + b, pathname), Links(a, pathname), Links(b, pathname);
    forall k | 0 <= k < |l|
      ensures l[k] == (la + lb)[k]
    {
      if k < |a| {
        assert (a + b)[k] == a[k];
      } else {
        assert (a + b)[k] == b[k - |a|];
      }
    }
  }

  /** The subtopic list of one topic. */
  function SubtopicLinks(subtopics: seq<Subtopic>, topicId: string, pathname: string): seq<Link>
  {
    Links(SubtopicsOf(subtopics, topicId), pathname)
  }

  /** A link appears in a topic's list exactly when some subtopic of that topic produces it. */
  lemma SubtopicLinksMembership(subtopics: seq<Subtopic>, topicId: string, pathname: string, l: Link)
    ensures l in SubtopicLinks(subtopics, topicId, pathname) <==>
            exists s :: s in subtopics && s.topicId == topicId && l == SubtopicLink(s, pathname)
  {
    var f := SubtopicsOf(subtopics, topicId);
    if l in SubtopicLinks(subtopics, topicId, pathname) {
      var k :| 0 <= k < |f| && SubtopicLinks(subtopics, topicId, pathname)[k] == l;
      SubtopicsOfMembership(subtopics, topicId, f[k]);
    }
    if exists s :: s in subtopics && s.topicId == topicId && l == SubtopicLink(s, pathname) {
      var s :| s in subtopics && s.topicId == topicId && l == SubtopicLink(s, pathname);
      SubtopicsOfMembership(subtopics, topicId, s);
      var k :| 0 <= k < |f| && f[k] == s;
      assert SubtopicLinks(subtopics, topicId, pathname)[k] == l;
    }
  }

  /**
   * `createSubtopicsListElem`: walks the whole table and appends an entry
   * for every subtopic of `topicId`; the list is returned even when empty.
   */
  method CreateSubtopicsList(subtopics: seq<Subtopic>, topicId: string, pathname: string) returns (list: seq<Link>)
    ensures list == SubtopicLinks(subtopics, topicId, pathname)
  {
    list := [];
    var i := 0;
    while i < |subtopics|
      invariant 0 <= i <= |subtopics|
      invariant list == SubtopicLinks(subtopics[..i], topicId, pathname)
    {
      var item := subtopics[i];
      assert subtopics[..i + 1] == subtopics[..i] + [item];
      SubtopicsOfSnoc(subtopics[..i], topicId, item);
      if topicId == item.topicId {
        var href := LinkPath(pathname, item.topicId, item.fileName);
        list := list + [Link(href, item.title)];
      }
      i := i + 1;
    }
    assert subtopics[..i] == subtopics;
  }

  // ---------------------------------------------------------------------
  // The navigation

  /** One topic entry: its label and its (possibly empty) subtopic list. */
  datatype NavItem = NavItem(title: string, subtopics: seq<Link>)

  /** The navigation the topic loop builds: one entry per topic, in order. */
  function Navigation(topics: seq<Topic>, subtopics: seq<Subtopic>, pathname: string): (nav: seq<NavItem>)
    ensures |nav| == |topics|
    ensures forall i :: 0 <= i < |nav| ==> nav[i].title == topics[i].title
  {
    seq(|topics|, i requires 0 <= i < |topics| =>
      NavItem(topics[i].title, SubtopicLinks(subtopics, topics[i].id, pathname)))
  }

  /**
   * The navigation lists a subtopic's link under a topic exactly when the
   * subtopic belongs to that topic.
   */
  lemma NavigationListsSubtopic(topics: seq<Topic>, subtopics: seq<Subtopic>, pathname: string, i: int, s: Subtopic)
    requires 0 <= i < |topics|
    requires s in subtopics
    ensures SubtopicLink(s, pathname) in Navigation(topics, subtopics, pathname)[i].subtopics <==>
            exists t :: t in subtopics && t.topicId == topics[i].id && SubtopicLink(t, pathname) == SubtopicLink(s, pathname)
  {
    SubtopicLinksMembership(subtopics, topics[i].id, pathname, SubtopicLink(s, pathname));
  }

  /** `initNav`: one item per topic, each with the list `createSubtopicsListElem` builds. */
  method InitNav(topics: seq<Topic>, subtopics: seq<Subtopic>, pathname: string) returns (nav: seq<NavItem>)
    ensures nav == Navigation(topics, subtopics, pathname)
  {
    nav := [];
    var i := 0;
    while i < |topics|
      invariant 0 <= i <= |topics|
      invariant nav == Navigation(topics[..i], subtopics, pathname)
    {
      var list := CreateSubtopicsList(subtopics, topics[i].id, pathname);
      nav := nav + [NavItem(topics[i].title, list)];
      i := i + 1;
      assert topics[..i][..i - 1] == topics[..i - 1];
    }
    assert topics[..i] == topics;
  }

  // ---------------------------------------------------------------------
  // Clicks

  /** The attributes of a click target. */
  type Attributes = map<string, string>

  /** `getAttribute`: the value, or null when absent. */
  function GetAttribute(attrs: Attributes, name: string): (r: Option<string>)
    ensures r.Some? <==> name in attrs
    ensures r.Some? ==> r.value == attrs[name]
  {
    if name in attrs then Some(attrs[name]) else None
  }

  /** A value interpolated into a template string; null prints as "null". */
  function Render(v: Option<string>): string
  {
    match v
    case Some(s) => s
    case None => "null"
  }

  /** The frame source of a subtopic click. */
  function ClickPath(dir: Option<string>, name: Option<string>): string
  {
    "topics/" + Render(dir) + "/" + Render(name)
  }

  /** The frame source a click asks for, if any: only subtopic targets ask for one. */
  function ClickTarget(attrs: Attributes): (r: Option<string>)
    ensures r.Some? <==> "data-type" in attrs && attrs["data-type"] == "subtopic"
  {
    if GetAttribute(attrs, "data-type") == Some("subtopic") then
      Some(ClickPath(GetAttribute(attrs, "data-topic"), GetAttribute(attrs, "data-filename")))
    else None
  }

  /** A subtopic click with slash-free directory and file asks for `topics/<dir>/<file>`; missing ones read "null". */
  lemma ClickTargetPieces(attrs: Attributes)
    requires "data-type" in attrs && attrs["data-type"] == "subtopic"
    requires NoSlash(Render(GetAttribute(attrs, "data-topic")))
    requires NoSlash(Render(GetAttribute(attrs, "data-filename")))
    ensures ClickTarget(attrs).Some?
    ensures Split(ClickTarget(attrs).value) ==
            ["topics", Render(GetAttribute(attrs, "data-topic")), Render(GetAttribute(attrs, "data-filename"))]
  {
    var dir, name := Render(GetAttribute(attrs, "data-topic")), Render(GetAttribute(attrs, "data-filename"));
    JoinThree("topics", dir, name);
    assert "topics" + "/" == "topics/";
    assert ClickTarget(attrs).value == Join(["topics", dir, name]);
    SplitJoin(["topics", dir, name]);
  }

  // ---------------------------------------------------------------------
  // Where a relative link leads

  /**
   * Resolution of relative path pieces against a directory: `..` drops the
   * last directory, any other piece descends into it.
   */
  function Resolve(dir: seq<string>, rel: seq<string>): (r: seq<string>)
    ensures |r| <= |dir| + |rel|
    decreases |rel|
  {
    if |rel| == 0 then dir
    else if rel[0] == ".." then Resolve(if |dir| == 0 then [] else dir[..|dir| - 1], rel[1..])
    else Resolve(dir + [rel[0]], rel[1..])
  }

  /** Pieces other than `..` descend one directory each. */
  lemma {:induction false} ResolveDescends(dir: seq<string>, rel: seq<string>)
    requires forall k :: 0 <= k < |rel| ==> rel[k] != ".."
    ensures Resolve(dir, rel) == dir + rel
    decreases |rel|
  {
    if |rel| > 0 {
      ResolveDescends(dir + [rel[0]], rel[1..]);
      assert dir + [rel[0]] + rel[1..] == dir + rel;
    }
  }

  /**
   * Both forms of a subtopic link, and the click path taken from the
   * documentation index, lead to the same page `doc/topics/<dir>/<file>`:
   * from a page in `doc/` the long form, from a page in `doc/topics/<t>/`
   * the short form.
   */
  lemma LinksReachSamePage(root: seq<string>, t: string, pathname: string, topicDir: string, name: string)
    requires NoSlash(topicDir) && NoSlash(name) && topicDir != ".." && name != ".."
    ensures !HasSegment(pathname, "topics") ==>
            Resolve(root + ["doc"], Split(LinkPath(pathname, topicDir, name))) == root + ["doc", "topics", topicDir, name]
    ensures HasSegment(pathname, "topics") ==>
            Resolve(root + ["doc", "topics", t], Split(LinkPath(pathname, topicDir, name))) == root + ["doc", "topics", topicDir, name]
    ensures Resolve(root + ["doc"], Split(ClickPath(Some(topicDir), Some(name)))) == root + ["doc", "topics", topicDir, name]
  {
    var target := root + ["doc", "topics", topicDir, name];
    LinkPathPieces(pathname, topicDir, name);
    if HasSegment(pathname, "topics") {
      var dir := root + ["doc", "topics", t];
      var rel := ["..", topicDir, name];
      assert dir[..|dir| - 1] == root + ["doc", "topics"];
      assert rel[1..] == [topicDir, name];
      ResolveDescends(root + ["doc", "topics"], [topicDir, name]);
      assert Resolve(dir, rel) == target;
    } else {
      var dir := root + ["doc"];
      var rel := ["..", "doc", "topics", topicDir, name];
      assert dir[..|dir| - 1] == root;
      assert rel[1..] == ["doc", "topics", topicDir, name];
      ResolveDescends(root, ["doc", "topics", topicDir, name]);
      assert Resolve(dir, rel) == target;
    }
    JoinThree("topics", topicDir, name);
    assert "topics" + "/" == "topics/";
    SplitJoin(["topics", topicDir, name]);
    ResolveDescends(root + ["doc"], ["topics", topicDir, name]);
  }

  /** The documentation page's content frame, the only state a click changes. */
  class DocPage {
    const hasIframe: bool
    var iframeSrc: Option<string>

    constructor (hasIframe: bool, iframeSrc: Option<string>)
      ensures this.hasIframe == hasIframe && this.iframeSrc == iframeSrc
    {
      this.hasIframe := hasIframe;
      this.iframeSrc := iframeSrc;
    }

    /**
     * `onClickTopic`: a subtopic target points the frame (if there is one)
     * at its page; any other target, a topic label included, changes nothing.
     */
    method OnClickTopic(attrs: Attributes)
      modifies this`iframeSrc
      ensures hasIframe && ClickTarget(attrs).Some? ==> iframeSrc == ClickTarget(attrs)
      ensures !(hasIframe && ClickTarget(attrs).Some?) ==> iframeSrc == old(iframeSrc)
    {
      var isSubtopic := GetAttribute(attrs, "data-type") == Some("subtopic");
      if isSubtopic {
        var dir := GetAttribute(attrs, "data-topic");
        var name := GetAttribute(attrs, "data-filename");
        var filePath := "topics/" + Render(dir) + "/" + Render(name);
        if hasIframe {
          iframeSrc := Some(filePath);
        }
      }
    }
  }
}
