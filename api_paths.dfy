/** URL building in frontend/src/lib/api.ts: joinPath and getApiUrl. */
module ApiPaths {
  import opened Text

  /** base.replace(/\/$/, ''): one trailing '/' removed, if there is one. */
  function DropTrailingSlash(base: string): (r: string)
    ensures r == base || r + "/" == base
    ensures |base| > 0 && base[|base| - 1] == '/' ==> r + "/" == base
  {
    if |base| > 0 && base[|base| - 1] == '/' then base[..|base| - 1] else base
  }

  /** p.replace(/^\//, ''): one leading '/' removed, if there is one. */
  function DropLeadingSlash(p: string): (r: string)
    ensures r == p || "/" + r == p
    ensures |p| > 0 && p[0] == '/' ==> "/" + r == p
  {
    if |p| > 0 && p[0] == '/' then p[1..] else p
  }

  function DropLeadingSlashes(parts: seq<string>): (r: seq<string>)
    ensures |r| == |parts| && forall i :: 0 <= i < |parts| ==> r[i] == DropLeadingSlash(parts[i])
  {
    seq(|parts|, i requires 0 <= i < |parts| => DropLeadingSlash(parts[i]))
  }

  /** The pieces joinPath puts between its separators. */
  function Pieces(base: string, parts: seq<string>): seq<string> {
    [DropTrailingSlash(base)] + DropLeadingSlashes(parts)
  }

  function JoinPath(base: string, parts: seq<string>): string {
    Join(Pieces(base, parts), "/")
  }

  /** getApiUrl(path) with the configured API URL and base path. */
  function GetApiUrl(apiUrl: string, apiBasePath: string, path: string): (r: string)
    ensures r == JoinPath(apiUrl, [apiBasePath, path])
  {
    JoinPath(apiUrl, [apiBasePath, path])
  }

  predicate NoTrailingSlash(s: string) {
    |s| == 0 || s[|s| - 1] != '/'
  }

  predicate NoLeadingSlash(s: string) {
    |s| == 0 || s[0] != '/'
  }

  lemma CleanPieces(base: string, parts: seq<string>)
    requires NoTrailingSlash(base)
    requires forall i :: 0 <= i < |parts| ==> NoLeadingSlash(parts[i])
    ensures Pieces(base, parts) == [base] + parts
  {
    var ps := Pieces(base, parts);
    forall i | 0 <= i < |parts| ensures ps[i + 1] == parts[i] {
      assert ps[i + 1] == DropLeadingSlashes(parts)[i];
    }
  }

  /** For inputs with no slash to strip, the result is base + "/" + p1 + "/"
      + ... in argument order. */
  lemma CleanJoin(base: string, parts: seq<string>)
    requires NoTrailingSlash(base)
    requires forall i :: 0 <= i < |parts| ==> NoLeadingSlash(parts[i])
    ensures JoinPath(base, parts) == Join([base] + parts, "/")
  {
    CleanPieces(base, parts);
  }

  /** When no piece holds a '/' of its own, splitting the URL at '/' gives
      back the pieces: exactly one '/' sits between consecutive pieces. */
  lemma JoinPathSplit(base: string, parts: seq<string>)
    requires forall i :: 0 <= i < |Pieces(base, parts)| ==> '/' !in Pieces(base, parts)[i]
    ensures Split(JoinPath(base, parts), "/") == Pieces(base, parts)
  {
    SplitJoin(Pieces(base, parts), "/");
  }

  /** The API URL of a path is the configured URL, the base path and the path,
      each with at most one edge slash removed, joined by '/'. */
  lemma ApiUrlShape(apiUrl: string, apiBasePath: string, path: string)
    ensures GetApiUrl(apiUrl, apiBasePath, path)
            == DropTrailingSlash(apiUrl) + "/" + DropLeadingSlash(apiBasePath) + "/" + DropLeadingSlash(path)
  {
    var ps := Pieces(apiUrl, [apiBasePath, path]);
    var a, b, c := DropTrailingSlash(apiUrl), DropLeadingSlash(apiBasePath), DropLeadingSlash(path);
    assert ps == [a, b, c];
    assert ps[1..] == [b, c];
    assert ps[1..][1..] == [c];
    assert Join([c], "/") == c;
    assert Join([b, c], "/") == b + "/" + c;
  }
}
