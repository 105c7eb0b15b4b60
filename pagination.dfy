/**
 * PaginationHelper of apps/utils/pagination.py: the rows-per-page choice
 * (URL argument, then cookie, then default), the page number, the model
 * lookup by name, and the rows-per-page selector of the pagination bar.
 * The request is a parameter: its query arguments and its cookies.
 */
module Pagination {
  import opened Common
  import opened Exceptions
  import opened Entities
  import opened Text

  const DefaultPerPage: int := 5
  const AllowPerPage: seq<int> := [5, 10, 20, 50]

  datatype Request = Request(args: map<string, string>, cookies: map<string, string>)

  /** The cookie remembering a model's choice: per_page_<lower-cased model name>. */
  function CookieKey(modelName: string): string {
    "per_page_" + Lower(modelName)
  }

  /** int(request.args.get('per_page', 0)); None when int() raises. */
  function UrlPerPage(req: Request): Option<int> {
    if "per_page" in req.args then ParseInt(req.args["per_page"]) else Some(0)
  }

  /**
   * get_per_page: an allowed URL value wins and a malformed one is ignored;
   * otherwise a non-empty cookie is parsed (unguarded, so a malformed one
   * raises ValueError) and used when allowed; otherwise the default.
   */
  function GetPerPage(req: Request, modelName: string): (r: Result<int, Error>)
    ensures r.Ok? ==> r.value in AllowPerPage
    ensures r.Err? ==> r.error == ValueError
  {
    var url := UrlPerPage(req);
    if url.Some? && url.value in AllowPerPage then Ok(url.value)
    else
      var key := CookieKey(modelName);
      if key !in req.cookies || req.cookies[key] == "" then Ok(DefaultPerPage)
      else
        var ck := ParseInt(req.cookies[key]);
        if ck.None? then Err(ValueError)
        else if ck.value in AllowPerPage then Ok(ck.value)
        else Ok(DefaultPerPage)
  }

  /** request.args.get('page', 1, type=int): 1 when absent or not an integer. */
  function PageNumber(req: Request): (r: int)
    ensures "page" in req.args && ParseInt(req.args["page"]).Some? ==> r == ParseInt(req.args["page"]).value
    ensures !("page" in req.args && ParseInt(req.args["page"]).Some?) ==> r == 1
  {
    if "page" in req.args then
      var p := ParseInt(req.args["page"]);
      if p.Some? then p.value else 1
    else 1
  }

  /** The page and page size paginate() hands to query.paginate. */
  function Paginate(req: Request, modelName: string): (r: Result<(int, int), Error>)
    ensures r.Ok? <==> GetPerPage(req, modelName).Ok?
    ensures r.Ok? ==> r.value.1 in AllowPerPage && r.value.0 == PageNumber(req)
  {
    var perPage := GetPerPage(req, modelName);
    if perPage.Err? then Err(perPage.error) else Ok((PageNumber(req), perPage.value))
  }

  /** An allowed per_page in the URL is taken as is, whatever the cookie says. */
  lemma UrlChoiceWins(req: Request, modelName: string, v: int)
    requires "per_page" in req.args && req.args["per_page"] == Show(v) && v in AllowPerPage
    ensures GetPerPage(req, modelName) == Ok(v)
  {
    ParseShow(v);
  }

  /** A URL value that is not an integer is ignored: the result is as if it were absent. */
  lemma MalformedUrlIgnored(req: Request, modelName: string)
    requires "per_page" in req.args && ParseInt(req.args["per_page"]).None?
    ensures GetPerPage(req, modelName) == GetPerPage(req.(args := req.args - {"per_page"}), modelName)
  {
  }

  /** Without a usable URL value an allowed cookie value is taken. */
  lemma CookieFallback(req: Request, modelName: string, v: int)
    requires UrlPerPage(req).None? || UrlPerPage(req).value !in AllowPerPage
    requires CookieKey(modelName) in req.cookies && req.cookies[CookieKey(modelName)] == Show(v)
    requires v in AllowPerPage
    ensures GetPerPage(req, modelName) == Ok(v)
  {
    ParseShow(v);
    assert Show(v) != "" by {
      assert v > 0;
    }
  }

  /** A cookie that is not an integer raises ValueError when the URL gives no allowed value. */
  lemma MalformedCookieRaises(req: Request, modelName: string)
    requires UrlPerPage(req).None? || UrlPerPage(req).value !in AllowPerPage
    requires CookieKey(modelName) in req.cookies && req.cookies[CookieKey(modelName)] != ""
    requires ParseInt(req.cookies[CookieKey(modelName)]).None?
    ensures GetPerPage(req, modelName) == Err(ValueError)
  {
  }

  /** With no argument and no cookie the default of 5 rows applies. */
  lemma NothingGivenDefault(modelName: string)
    ensures GetPerPage(Request(map[], map[]), modelName) == Ok(DefaultPerPage)
  {
  }

  /** The cookie of a model does not depend on the case of its name. */
  lemma CookieKeyIgnoresCase(modelName: string)
    ensures CookieKey(Lower(modelName)) == CookieKey(modelName)
  {
    LowerIdempotent(modelName);
  }

  /** MODEL_MAP as written: capitalised keys. */
  const ModelMap: map<string, Kind> := map["User" := User, "Role" := Role, "Group" := Group]

  /** _get_model as written: MODEL_MAP.get(model_name.lower()). */
  function GetModelAsWritten(modelName: string): Option<Kind> {
    var key := Lower(modelName);
    if key in ModelMap then Some(ModelMap[key]) else None
  }

  /**
   * A lower-cased name never equals a capitalised key, so the lookup as
   * written finds no model for any name, "User" included.
   */
  lemma GetModelAsWrittenFindsNothing(modelName: string)
    ensures GetModelAsWritten(modelName) == None
  {
    var key := Lower(modelName);
    assert |key| > 0 ==> !IsUpper(key[0]);
  }

  /** The case-insensitive lookup the docstring describes: keys compared lower-cased. */
  const LowerModelMap: map<string, Kind> := map["user" := User, "role" := Role, "group" := Group]

  function GetModel(modelName: string): (r: Option<Kind>)
    ensures r.Some? <==> Lower(modelName) in LowerModelMap
  {
    var key := Lower(modelName);
    if key in LowerModelMap then Some(LowerModelMap[key]) else None
  }

  /** Lower-casing the name does not change the lookup. */
  lemma GetModelIgnoresCase(modelName: string)
    ensures GetModel(Lower(modelName)) == GetModel(modelName)
  {
    LowerIdempotent(modelName);
  }

  /** Every MODEL_MAP key finds the model MODEL_MAP gives it. */
  lemma GetModelFindsEveryKey(name: string)
    requires name in ModelMap
    ensures GetModel(name) == Some(ModelMap[name])
  {
    if name == "User" {
      LowerOf("User", "user");
    } else if name == "Role" {
      LowerOf("Role", "role");
    } else {
      LowerOf("Group", "group");
    }
  }

  lemma LowerOf(s: string, t: string)
    requires |s| == |t| && forall i | 0 <= i < |s| :: LowerChar(s[i]) == t[i]
    ensures Lower(s) == t
  {
  }

  const SelectOpen := "<select id=\"ppSel\" onchange=\"changePerPage(this.value)\">"
  const SelectClose := "</select>"

  /** <option value="v" selected>v</option>, with `selected` only for the current size. */
  function OptionTag(v: int, selected: bool): string {
    "<option value=\"" + Show(v) + "\" " + (if selected then "selected" else "") + ">" + Show(v) + "</option>"
  }

  /** The option tags for the sizes in vs, in order. */
  function Options(vs: seq<int>, current: int): string {
    if vs == [] then ""
    else Options(vs[..|vs| - 1], current) + OptionTag(vs[|vs| - 1], vs[|vs| - 1] == current)
  }

  function SelectHtml(current: int): string {
    SelectOpen + Options(AllowPerPage, current) + SelectClose
  }

  lemma ContainsLeft(a: string, b: string, t: string)
    requires Contains(a, t)
    ensures Contains(a + b, t)
  {
    var i :| 0 <= i <= |a| - |t| && OccursAt(a, t, i);
    assert (a + b)[i..i + |t|] == a[i..i + |t|];
    assert OccursAt(a + b, t, i);
  }

  lemma ContainsRight(a: string, b: string, t: string)
    requires Contains(b, t)
    ensures Contains(a + b, t)
  {
    var i :| 0 <= i <= |b| - |t| && OccursAt(b, t, i);
    assert (a + b)[|a| + i..|a| + i + |t|] == b[i..i + |t|];
    assert OccursAt(a + b, t, |a| + i);
  }

  lemma ContainsSelf(t: string)
    ensures Contains(t, t)
  {
    assert OccursAt(t, t, 0);
  }

  /** Every size of vs has its option tag, marked selected exactly when it is the current size. */
  lemma {:induction false} OptionsList(vs: seq<int>, current: int, k: nat)
    requires k < |vs|
    ensures Contains(Options(vs, current), OptionTag(vs[k], vs[k] == current))
  {
    var last := |vs| - 1;
    var front := Options(vs[..last], current);
    var tag := OptionTag(vs[last], vs[last] == current);
    if k == last {
      ContainsSelf(tag);
      ContainsRight(front, tag, tag);
    } else {
      OptionsList(vs[..last], current, k);
      assert vs[..last][k] == vs[k];
      ContainsLeft(front, tag, OptionTag(vs[k], vs[k] == current));
    }
  }

  lemma OptionsStep(vs: seq<int>, current: int, i: nat)
    requires i < |vs|
    ensures Options(vs[..i + 1], current) == Options(vs[..i], current) + OptionTag(vs[i], vs[i] == current)
  {
    assert vs[..i + 1][..i] == vs[..i];
  }

  /**
   * The selector offers every allowed size, and the current size, when it is
   * one of them, is the selected option.
   */
  lemma SelectOffersEverySize(current: int, k: nat)
    requires k < |AllowPerPage|
    ensures Contains(SelectHtml(current), OptionTag(AllowPerPage[k], AllowPerPage[k] == current))
    ensures current in AllowPerPage ==> Contains(SelectHtml(current), OptionTag(current, true))
  {
    var t := OptionTag(AllowPerPage[k], AllowPerPage[k] == current);
    OptionsList(AllowPerPage, current, k);
    ContainsRight(SelectOpen, Options(AllowPerPage, current), t);
    ContainsLeft(SelectOpen + Options(AllowPerPage, current), SelectClose, t);
    if current in AllowPerPage {
      var j :| 0 <= j < |AllowPerPage| && AllowPerPage[j] == current;
      var u := OptionTag(current, true);
      OptionsList(AllowPerPage, current, j);
      ContainsRight(SelectOpen, Options(AllowPerPage, current), u);
      ContainsLeft(SelectOpen + Options(AllowPerPage, current), SelectClose, u);
    }
  }

  /** The option tags of the selector, appended one allowed size at a time. */
  method BuildOptions(perPage: int) returns (tags: string)
    ensures tags == Options(AllowPerPage, perPage)
  {
    tags := "";
    var i := 0;
    while i < |AllowPerPage|
      invariant 0 <= i <= |AllowPerPage|
      invariant tags == Options(AllowPerPage[..i], perPage)
    {
      OptionsStep(AllowPerPage, perPage, i);
      tags := tags + OptionTag(AllowPerPage[i], AllowPerPage[i] == perPage);
      i := i + 1;
    }
    assert AllowPerPage[..i] == AllowPerPage;
  }

  /**
   * render_pagination, down to the rows-per-page selector: nothing for at
   * most one page, otherwise the selector with its option tags.
   */
  method RenderPagination(pages: int, perPage: int) returns (html: string)
    ensures html == "" <==> pages <= 1
    ensures pages > 1 ==> html == SelectHtml(perPage)
  {
    if pages <= 1 {
      return "";
    }
    var tags := BuildOptions(perPage);
    html := SelectOpen + tags + SelectClose;
  }
}
