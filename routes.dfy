/**
 * apps/home/routes.py: the back-office menu constant, the template name a
 * page request is served from, and get_segment, which names the current page
 * after the last component of the request path.
 */
module HomeRoutes {
  import opened Common
  import opened Text

  /**
   * A menu entry: a link (href) or a sub-menu (children). The dictionaries of
   * the menu constant carry one key or the other, modelled as two options.
   */
  datatype Entry = Entry(name: string, icon: string, contextKey: string,
                         href: Option<string>, children: Option<seq<Entry>>)

  // BACKEND_ADMIN_MENU_ITEMS, entry by entry.
  const Dashboard := Entry("首页看板", "fa-home", "dashboard", Some("/dashboard.html"), None)
  const Contracts := Entry("合同管理", "fa-file-contract", "contracts", Some("/contracts.html"), None)
  const WorkOrders := Entry("工单管理", "fa-tasks", "workorders", Some("/workorders.html"), None)
  const Approvals := Entry("请求审核", "fa-check-circle", "approvals", Some("/approvals.html"), None)
  const Roles := Entry("角色管理", "fa-user-shield", "roles", Some("/roles.html"), None)
  const UserGroups := Entry("用户组", "fa-circle", "user-groups", Some("/user-groups.html"), None)
  const UserList := Entry("用户列表", "fa-circle", "user-list", Some("/user-list.html"), None)
  const Users := Entry("用户管理", "fa-users", "users", None, Some([UserGroups, UserList]))
  const BasicResources := Entry("基础资源", "fa-circle", "basic-resources", Some("/basic-resources.html"), None)
  const BusinessResources := Entry("业务资源", "fa-circle", "business-resources", Some("/business-resources.html"), None)
  const Resources := Entry("资源管理", "fa-boxes", "resources", None, Some([BasicResources, BusinessResources]))
  const Alerts := Entry("告警管理", "fa-exclamation-triangle", "alerts", Some("/alerts.html"), None)
  const Feedback := Entry("反馈管理", "fa-comment-dots", "feedback", Some("/feedback.html"), None)
  const AuditLogs := Entry("审计日志", "fa-circle", "audit-logs", Some("/audit-logs.html"), None)
  const LoginLogs := Entry("登录日志", "fa-circle", "login-logs", Some("/login-logs.html"), None)
  const RuntimeLogs := Entry("运行日志", "fa-circle", "runtime-logs", Some("/runtime-logs.html"), None)
  const Logs := Entry("日志管理", "fa-clipboard-list", "logs", None, Some([AuditLogs, LoginLogs, RuntimeLogs]))

  /** BACKEND_ADMIN_MENU_ITEMS. */
  const Menu: seq<Entry> := [Dashboard, Contracts, WorkOrders, Approvals, Roles, Users, Resources, Alerts, Feedback, Logs]

  /** The sub-menu entries of an entry; none for a link. */
  function Children(e: Entry): seq<Entry> {
    if e.children.Some? then e.children.value else []
  }

  /** The entries of the two-level menu, each followed by its sub-menu entries. */
  function Flatten(items: seq<Entry>): seq<Entry> {
    if items == [] then [] else [items[0]] + Children(items[0]) + Flatten(items[1..])
  }

  /** An entry is a link or a sub-menu, never both and never neither. */
  predicate LinkOrSubMenu(e: Entry) {
    e.href.Some? != e.children.Some?
  }

  /** Every entry and every sub-menu entry of a two-level menu is a link or a sub-menu. */
  lemma {:induction false} FlattenLinkOrSubMenu(items: seq<Entry>)
    requires forall i | 0 <= i < |items| :: LinkOrSubMenu(items[i])
    requires forall i, k | 0 <= i < |items| && 0 <= k < |Children(items[i])| :: LinkOrSubMenu(Children(items[i])[k])
    ensures forall e | e in Flatten(items) :: LinkOrSubMenu(e)
  {
    if items != [] {
      FlattenLinkOrSubMenu(items[1..]);
      assert forall i | 1 <= i < |items| :: items[1..][i - 1] == items[i];
    }
  }

  /** Every entry of the menu, sub-menu entries included, is a link or a sub-menu. */
  lemma MenuEntriesLinkOrSubMenu()
    ensures forall e | e in Flatten(Menu) :: LinkOrSubMenu(e)
  {
    assert Children(Users) == [UserGroups, UserList];
    assert Children(Resources) == [BasicResources, BusinessResources];
    assert Children(Logs) == [AuditLogs, LoginLogs, RuntimeLogs];
    FlattenLinkOrSubMenu(Menu);
  }

  /** The context keys the template highlights, one per entry. */
  function ContextKeys(items: seq<Entry>): seq<string> {
    if items == [] then [] else [items[0].contextKey] + ContextKeys(items[1..])
  }

  predicate NoRepeats(keys: seq<string>) {
    forall i, j | 0 <= i < j < |keys| :: keys[i] != keys[j]
  }

  lemma {:induction false} KeysAppend(a: seq<Entry>, b: seq<Entry>)
    ensures ContextKeys(a + b) == ContextKeys(a) + ContextKeys(b)
  {
    if a != [] {
      KeysAppend(a[1..], b);
      assert (a + b)[1..] == a[1..] + b;
    } else {
      assert a + b == b;
    }
  }

  /** Flattening distributes over concatenation of menus. */
  lemma {:induction false} FlattenAppend(a: seq<Entry>, b: seq<Entry>)
    ensures Flatten(a + b) == Flatten(a) + Flatten(b)
  {
    if a != [] {
      var h := [a[0]] + Children(a[0]);
      FlattenAppend(a[1..], b);
      assert (a + b)[1..] == a[1..] + b;
      assert (a + b)[0] == a[0];
      assert Flatten(a + b) == h + Flatten(a[1..] + b);
      assert h + (Flatten(a[1..]) + Flatten(b)) == (h + Flatten(a[1..])) + Flatten(b);
    } else {
      assert a + b == b;
    }
  }

  /** The flattened keys of a menu of one entry: its own, then its sub-menu's. */
  lemma EntryKeys(e: Entry)
    ensures ContextKeys(Flatten([e])) == [e.contextKey] + ContextKeys(Children(e))
  {
    assert [e][1..] == [];
    assert Flatten([e]) == [e] + Children(e);
    KeysAppend([e], Children(e));
  }

  lemma PairKeys(x: Entry, y: Entry)
    ensures ContextKeys([x, y]) == [x.contextKey, y.contextKey]
  {
    assert [y][1..] == [];
    assert ContextKeys([y]) == [y.contextKey];
    assert [x, y][1..] == [y];
  }

  lemma TripleKeys(x: Entry, y: Entry, z: Entry)
    ensures ContextKeys([x, y, z]) == [x.contextKey, y.contextKey, z.contextKey]
  {
    assert [x, y, z][1..] == [y, z];
    PairKeys(y, z);
  }

  /** The keys of two menus side by side: those of the first, then those of the second. */
  lemma FlatKeysAppend(a: seq<Entry>, b: seq<Entry>)
    ensures ContextKeys(Flatten(a + b)) == ContextKeys(Flatten(a)) + ContextKeys(Flatten(b))
  {
    FlattenAppend(a, b);
    KeysAppend(Flatten(a), Flatten(b));
  }

  /** Two key lists without repeats and without a common key join into one without repeats. */
  lemma NoRepeatsAppend(a: seq<string>, b: seq<string>)
    requires NoRepeats(a) && NoRepeats(b)
    requires forall i, j | 0 <= i < |a| && 0 <= j < |b| :: a[i] != b[j]
    ensures NoRepeats(a + b)
  {
  }

  lemma TopKeys()
    ensures ContextKeys(Flatten([Dashboard, Contracts, WorkOrders])) == ["dashboard", "contracts", "workorders"]
  {
    FlatKeysAppend([Dashboard, Contracts], [WorkOrders]);
    FlatKeysAppend([Dashboard], [Contracts]);
    assert [Dashboard, Contracts, WorkOrders] == [Dashboard, Contracts] + [WorkOrders];
    assert [Dashboard, Contracts] == [Dashboard] + [Contracts];
    EntryKeys(Dashboard);
    EntryKeys(Contracts);
    EntryKeys(WorkOrders);
  }

  lemma AdminKeys()
    ensures ContextKeys(Flatten([Approvals, Roles, Users])) == ["approvals", "roles", "users", "user-groups", "user-list"]
  {
    FlatKeysAppend([Approvals, Roles], [Users]);
    FlatKeysAppend([Approvals], [Roles]);
    assert [Approvals, Roles, Users] == [Approvals, Roles] + [Users];
    assert [Approvals, Roles] == [Approvals] + [Roles];
    EntryKeys(Approvals);
    EntryKeys(Roles);
    EntryKeys(Users);
    PairKeys(UserGroups, UserList);
  }

  lemma ResourceKeys()
    ensures ContextKeys(Flatten([Resources, Alerts])) == ["resources", "basic-resources", "business-resources", "alerts"]
  {
    FlatKeysAppend([Resources], [Alerts]);
    assert [Resources, Alerts] == [Resources] + [Alerts];
    EntryKeys(Resources);
    EntryKeys(Alerts);
    PairKeys(BasicResources, BusinessResources);
  }

  lemma LogKeys()
    ensures ContextKeys(Flatten([Feedback, Logs])) == ["feedback", "logs", "audit-logs", "login-logs", "runtime-logs"]
  {
    FlatKeysAppend([Feedback], [Logs]);
    assert [Feedback, Logs] == [Feedback] + [Logs];
    EntryKeys(Feedback);
    EntryKeys(Logs);
    TripleKeys(AuditLogs, LoginLogs, RuntimeLogs);
  }

  /** The menu down to user management, and the rest of it. */
  const FrontMenu: seq<Entry> := [Dashboard, Contracts, WorkOrders, Approvals, Roles, Users]
  const BackMenu: seq<Entry> := [Resources, Alerts, Feedback, Logs]

  const FrontKeyList: seq<string> :=
    ["dashboard", "contracts", "workorders", "approvals", "roles", "users", "user-groups", "user-list"]
  const BackKeyList: seq<string> :=
    ["resources", "basic-resources", "business-resources", "alerts", "feedback", "logs", "audit-logs", "login-logs", "runtime-logs"]

  lemma FrontKeys()
    ensures ContextKeys(Flatten(FrontMenu)) == FrontKeyList
  {
    assert FrontMenu == [Dashboard, Contracts, WorkOrders] + [Approvals, Roles, Users];
    FlatKeysAppend([Dashboard, Contracts, WorkOrders], [Approvals, Roles, Users]);
    TopKeys();
    AdminKeys();
    assert FrontKeyList == ["dashboard", "contracts", "workorders"] + ["approvals", "roles", "users", "user-groups", "user-list"];
  }

  lemma BackKeys()
    ensures ContextKeys(Flatten(BackMenu)) == BackKeyList
  {
    assert BackMenu == [Resources, Alerts] + [Feedback, Logs];
    FlatKeysAppend([Resources, Alerts], [Feedback, Logs]);
    ResourceKeys();
    LogKeys();
    assert BackKeyList == ["resources", "basic-resources", "business-resources", "alerts"] + ["feedback", "logs", "audit-logs", "login-logs", "runtime-logs"];
  }

  /** The context keys of the whole menu, entries then their sub-menu entries, in order. */
  lemma MenuKeyList()
    ensures ContextKeys(Flatten(Menu)) == FrontKeyList + BackKeyList
  {
    assert Menu == FrontMenu + BackMenu;
    FlatKeysAppend(FrontMenu, BackMenu);
    FrontKeys();
    BackKeys();
  }

  lemma KeyListsDistinct()
    ensures NoRepeats(FrontKeyList) && NoRepeats(BackKeyList)
    ensures forall i, j | 0 <= i < |FrontKeyList| && 0 <= j < |BackKeyList| :: FrontKeyList[i] != BackKeyList[j]
  {
  }

  /** No two menu entries, at whatever level, share a context key. */
  lemma MenuContextKeysDistinct()
    ensures NoRepeats(ContextKeys(Flatten(Menu)))
  {
    MenuKeyList();
    KeyListsDistinct();
    NoRepeatsAppend(FrontKeyList, BackKeyList);
  }

  const HtmlSuffix := ".html"

  /** A template name lacking .html gets it appended. */
  function NormalizeTemplate(template: string): (r: string)
    ensures EndsWith(r, HtmlSuffix)
    ensures EndsWith(template, HtmlSuffix) ==> r == template
    ensures !EndsWith(template, HtmlSuffix) ==> r == template + HtmlSuffix
  {
    if EndsWith(template, HtmlSuffix) then template else template + HtmlSuffix
  }

  /** Normalising twice is normalising once. */
  lemma NormalizeIdempotent(template: string)
    ensures NormalizeTemplate(NormalizeTemplate(template)) == NormalizeTemplate(template)
  {
  }

  /** request.path.split('/'): the components between slashes, at least one. */
  function Split(path: string): (r: seq<string>)
    ensures |r| >= 1
    ensures forall i, k | 0 <= i < |r| && 0 <= k < |r[i]| :: r[i][k] != '/'
  {
    if path == [] then [""]
    else
      var front := Split(path[..|path| - 1]);
      var c := path[|path| - 1];
      if c == '/' then front + [""]
      else front[..|front| - 1] + [front[|front| - 1] + [c]]
  }

  /** '/'.join(parts). */
  function Join(parts: seq<string>): string
    requires |parts| >= 1
  {
    if |parts| == 1 then parts[0] else Join(parts[..|parts| - 1]) + "/" + parts[|parts| - 1]
  }

  /** Splitting at the slashes and joining back gives the path. */
  lemma {:induction false} JoinSplit(path: string)
    ensures Join(Split(path)) == path
  {
    if path != [] {
      var prefix := path[..|path| - 1];
      var front := Split(prefix);
      var c := path[|path| - 1];
      JoinSplit(prefix);
      if c == '/' {
        assert (front + [""])[..|front|] == front;
      } else {
        var p := front[..|front| - 1] + [front[|front| - 1] + [c]];
        if |front| == 1 {
          assert p == [front[0] + [c]];
        } else {
          assert p[..|p| - 1] == front[..|front| - 1];
          assert Join(front) == Join(front[..|front| - 1]) + "/" + front[|front| - 1];
        }
      }
      assert path == prefix + [c];
    }
  }

  /** The last component of the path: what follows its last slash, or the whole path. */
  function LastComponent(path: string): (r: string)
    ensures '/' !in r
    ensures |r| <= |path| && r == path[|path| - |r|..]
    ensures |r| < |path| ==> path[|path| - |r| - 1] == '/'
  {
    var parts := Split(path);
    var last := parts[|parts| - 1];
    LastOfSplit(path);
    last
  }

  /** The last part of the split is the path's tail after its last slash. */
  lemma {:induction false} LastOfSplit(path: string)
    ensures var parts := Split(path);
            var last := parts[|parts| - 1];
            && |last| <= |path| && last == path[|path| - |last|..]
            && (|last| < |path| ==> path[|path| - |last| - 1] == '/')
  {
    if path != [] {
      var prefix := path[..|path| - 1];
      LastOfSplit(prefix);
      var front := Split(prefix);
      var c := path[|path| - 1];
      if c != '/' {
        var before := front[|front| - 1];
        assert Split(path)[|Split(path)| - 1] == before + [c];
        assert path[|path| - |before| - 1..] == prefix[|prefix| - |before|..] + [c];
      }
    }
  }

  /** get_segment: the last component of request.path, "index" when it is empty. */
  function GetSegment(path: string): (r: string)
    ensures '/' !in r && r != ""
    ensures LastComponent(path) != "" ==> r == LastComponent(path)
    ensures LastComponent(path) == "" ==> r == "index"
  {
    var segment := LastComponent(path);
    if segment == "" then "index" else segment
  }

  /** The root path and any path ending in a slash name the index page. */
  lemma EmptySegmentIsIndex(path: string)
    requires path == "" || path[|path| - 1] == '/'
    ensures GetSegment(path) == "index"
  {
  }

  /** After a slash, the last part of the split is everything that follows it. */
  lemma {:induction false} LastAfterSlash(dir: string, page: string)
    requires '/' !in page
    ensures var parts := Split(dir + "/" + page); parts[|parts| - 1] == page
    decreases |page|
  {
    if page != [] {
      var front := page[..|page| - 1];
      LastAfterSlash(dir, front);
      assert (dir + "/" + page)[..|dir + "/" + page| - 1] == dir + "/" + front;
    }
  }

  /** A path ending in a non-empty component names the page after it. */
  lemma SegmentOfPage(dir: string, page: string)
    requires page != "" && '/' !in page
    ensures GetSegment(dir + "/" + page) == page
  {
    LastAfterSlash(dir, page);
  }

  /** route_template: the template file served and the segment passed to it. */
  function RouteTemplate(template: string, path: string): (r: (string, string))
    ensures r.0 == "home/" + NormalizeTemplate(template) && EndsWith(r.0, HtmlSuffix)
    ensures r.1 == GetSegment(path) && '/' !in r.1
  {
    ("home/" + NormalizeTemplate(template), GetSegment(path))
  }
}
