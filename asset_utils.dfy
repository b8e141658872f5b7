/** `getAssetPath`: in a production build, asset paths are placed under the router's basename
    `/thelearninghouse`; absolute URLs and development builds keep the path as given. */
module AssetUtils {
  import opened Common

  const Basename: string := "/thelearninghouse"

  /** The argument as JavaScript sees it: a string, or one of the two missing values, which a
      template string renders as `null` and `undefined`. */
  datatype JsPath = Str(s: string) | Null | Undefined

  /** JavaScript truthiness of the argument: a non-empty string. */
  predicate Truthy(p: JsPath) {
    p.Str? && p.s != ""
  }

  predicate IsUrl(p: JsPath) {
    Truthy(p) && (StartsWith(p.s, "http://") || StartsWith(p.s, "https://"))
  }

  /** `${path}` inside a template string. */
  function Rendered(p: JsPath): string {
    match p
    case Str(s) => s
    case Null => "null"
    case Undefined => "undefined"
  }

  /** The path with one leading slash removed, if it has one. */
  function WithoutLeadingSlash(s: string): string {
    if StartsWith(s, "/") then s[1..] else s
  }

  /** `getAssetPath(path)` under `production` (whether `NODE_ENV` is `production`). */
  function GetAssetPath(path: JsPath, production: bool): (r: JsPath)
    ensures IsUrl(path) ==> r == path
    ensures !production ==> r == path
    ensures production && !IsUrl(path) ==>
              r == Str(Basename + "/" + WithoutLeadingSlash(Rendered(path)))
  {
    if IsUrl(path) then path
    else if production then
      if Truthy(path) && StartsWith(path.s, "/") then
        var r := Basename + path.s;
        assert path.s == "/" + path.s[1..];
        assert r == Basename + "/" + path.s[1..];
        Str(r)
      else
        assert Rendered(path) == [] || Rendered(path)[0] != '/';
        assert Rendered(path) == WithoutLeadingSlash(Rendered(path));
        Str(Basename + "/" + Rendered(path))
    else path
  }

  /** Every production result that is not a URL lies under `/thelearninghouse/`. */
  lemma ProductionUnderBasename(path: JsPath)
    requires !IsUrl(path)
    ensures GetAssetPath(path, true).Str?
    ensures StartsWith(GetAssetPath(path, true).s, Basename + "/")
  {
    var rest := WithoutLeadingSlash(Rendered(path));
    assert (Basename + "/" + rest)[..|Basename + "/"|] == Basename + "/";
  }

  /** A leading slash makes no difference in production: `x` and `/x` name the same asset. */
  lemma LeadingSlashIrrelevant(s: string)
    requires !IsUrl(Str(s)) && !StartsWith(s, "/")
    ensures GetAssetPath(Str(s), true) == GetAssetPath(Str("/" + s), true)
  {
    assert ("/" + s)[..1] == "/";
    assert ("/" + s)[1..] == s;
    assert !StartsWith("/" + s, "http://") by {
      assert ("/" + s)[0] == '/';
    }
    assert !StartsWith("/" + s, "https://") by {
      assert ("/" + s)[0] == '/';
    }
  }

  /** Distinct production paths stay distinct, up to one leading slash. */
  lemma ProductionInjective(p: JsPath, q: JsPath)
    requires !IsUrl(p) && !IsUrl(q)
    requires GetAssetPath(p, true) == GetAssetPath(q, true)
    ensures WithoutLeadingSlash(Rendered(p)) == WithoutLeadingSlash(Rendered(q))
  {
    var a, b := WithoutLeadingSlash(Rendered(p)), WithoutLeadingSlash(Rendered(q));
    assert Basename + "/" + a == Basename + "/" + b;
    assert Basename + "/" + a == Basename + ("/" + a);
    assert Basename + "/" + b == Basename + ("/" + b);
    PrefixCancel(Basename + "/", a, b);
  }

  /** The empty path and the missing ones in production. */
  lemma MissingPaths()
    ensures GetAssetPath(Str(""), true) == Str("/thelearninghouse/")
    ensures GetAssetPath(Null, true) == Str("/thelearninghouse/null")
    ensures GetAssetPath(Undefined, true) == Str("/thelearninghouse/undefined")
  {
    assert !StartsWith("null", "/") && !StartsWith("undefined", "/") by {
      assert "null"[0] == 'n' && "undefined"[0] == 'u';
    }
    assert Basename + "/" == "/thelearninghouse/";
  }
}
