/**
 * The client of the remote file-listing service (`Alist`): the base address and
 * token it keeps, the download address it composes for a listed file, the path
 * normalisation of a directory-listing request, and the request envelope with
 * its response check. The HTTP exchange itself is a parameter: a `Server` maps
 * the address and request options to the decoded JSON response.
 */
module AlistApi {
  import opened Wrappers
  import Helper

  /**
   * One item of a directory listing. A missing `sign` is the empty string.
   * `path` is not part of the service's payload: the player attaches the track
   * directory the item was listed from.
   */
  datatype Entry = Entry(name: string, isDir: bool, sign: string, path: string)

  /** The `data` of a `/api/fs/list` response. */
  datatype Listing = Listing(content: seq<Entry>, total: int)

  /** A decoded response: `{code, message, data}`. */
  datatype Envelope<+T> = Envelope(code: int, message: string, data: T)

  /** The error `request` throws for a response whose code is not 200. */
  datatype ApiError = ApiError(endpoint: string, message: string)

  datatype HttpMethod = Get | Post

  /** The JSON body of a `/api/fs/list` request. */
  datatype Body = ListBody(path: string, password: string, page: int, perPage: int, refresh: bool)

  /** The options handed to `fetch`; a request without `method` is a GET. */
  datatype RequestInit = RequestInit(httpMethod: HttpMethod, headers: map<string, string>, body: Option<Body>)

  /** `fetch(address, init)` followed by `response.json()`. */
  type Server<T> = (string, RequestInit) -> Envelope<T>

  const ListEndpoint := "/api/fs/list"
  const ContentType := "Content-Type"
  const Authorization := "Authorization"
  const JsonType := "application/json"

  /** A response is an error carrying its message unless its code is 200. */
  function CheckResponse<T>(endpoint: string, response: Envelope<T>): (r: Result<T, ApiError>)
    ensures r.Success? <==> response.code == 200
    ensures r.Success? ==> r.value == response.data
    ensures r.Failure? ==> r.error.endpoint == endpoint && r.error.message == response.message
  {
    if response.code != 200 then Failure(ApiError(endpoint, response.message)) else Success(response.data)
  }

  /** The options `request` builds: POST with a JSON body only when data is given, and the token when there is one. */
  function InitFor(data: Option<Body>, token: string): (init: RequestInit)
    ensures init.httpMethod == (if data.Some? then Post else Get)
    ensures ContentType in init.headers <==> data.Some?
    ensures data.Some? ==> init.headers[ContentType] == JsonType
    ensures Authorization in init.headers <==> token != ""
    ensures token != "" ==> init.headers[Authorization] == token
    ensures init.headers.Keys <= {ContentType, Authorization}
    ensures init.body == data
  {
    var headers := if data.Some? then map[ContentType := JsonType] else map[];
    RequestInit(
      if data.Some? then Post else Get,
      if token != "" then headers[Authorization := token] else headers,
      data)
  }

  /**
   * The path `getFileList` sends: a non-empty path gets a leading "/" and loses
   * one trailing "/"; the empty path is sent as it is.
   */
  function NormalizeListPath(path: string): (r: string)
    ensures path == "" || path == "/" <==> r == ""
    ensures r != "" ==> r[0] == '/'
    ensures r != "" && r[|r| - 1] == '/' ==> Helper.EndsWith(path, "//")
  {
    if path == "" then path
    else
      NormalizeNonEmpty(path);
      Helper.RemoveEnd(Helper.CompleteStart(path, "/"), "/")
  }

  lemma NormalizeNonEmpty(path: string)
    requires path != ""
    ensures var r := Helper.RemoveEnd(Helper.CompleteStart(path, "/"), "/");
      && (r == "" <==> path == "/")
      && (r != "" ==> r[0] == '/')
      && (r != "" && r[|r| - 1] == '/' ==> Helper.EndsWith(path, "//"))
  {
    var started := Helper.CompleteStart(path, "/");
    DropOneSlash(started);
    if started != path {
      assert started == "/" + path;
      EndsWithPrepended(path);
    }
  }

  /** Removing one trailing "/" from a slash-led path. */
  lemma DropOneSlash(started: string)
    requires "/" <= started
    ensures var r := Helper.RemoveEnd(started, "/");
      && (r == "" <==> started == "/")
      && (r != "" ==> r[0] == '/')
      && (r != "" && r[|r| - 1] == '/' ==> Helper.EndsWith(started, "//"))
  {
    var r := Helper.RemoveEnd(started, "/");
    if Helper.EndsWith(started, "/") {
      assert started == r + "/";
      if r != "" && r[|r| - 1] == '/' {
        assert started[|started| - 2..] == [r[|r| - 1], '/'];
      }
    }
  }

  /** A leading "/" on a non-empty path does not create a trailing "//". */
  lemma EndsWithPrepended(path: string)
    requires path != ""
    ensures Helper.EndsWith("/" + path, "//") ==> Helper.EndsWith(path, "//") || path == "/"
  {
    var s := "/" + path;
    if Helper.EndsWith(s, "//") {
      var t := s[|s| - 2..];
      assert t == "//";
      assert t[0] == '/' && t[1] == '/';
      if |path| == 1 {
        assert path[0] == s[1] == t[1];
        assert path == "/";
      } else {
        assert t == path[|path| - 2..];
      }
    }
  }

  /** `a`, `/a`, `a/` and `/a/` name the same directory. */
  lemma NormalizeListPathSpellings(path: string)
    requires path != "" && path[0] != '/' && path[|path| - 1] != '/'
    ensures NormalizeListPath("/" + path) == NormalizeListPath(path)
    ensures NormalizeListPath(path + "/") == NormalizeListPath(path)
    ensures NormalizeListPath("/" + path + "/") == NormalizeListPath(path)
    ensures NormalizeListPath(path) == "/" + path
  {
    var slashed := "/" + path;
    assert !("/" <= path) && "/" <= slashed;
    assert (path + "/")[0] == path[0];
    assert !("/" <= path + "/");
    assert "/" + (path + "/") == slashed + "/";
    assert slashed + "/" == "/" + path + "/";
    assert "/" <= slashed + "/";
    TrailingSlashDropped(slashed);
  }

  /** One trailing "/" is removed, and a path without one is kept. */
  lemma TrailingSlashDropped(p: string)
    requires p != [] && p[|p| - 1] != '/'
    ensures Helper.RemoveEnd(p, "/") == p
    ensures Helper.RemoveEnd(p + "/", "/") == p
  {
    assert !Helper.EndsWith(p, "/");
    assert Helper.EndsWith(p + "/", "/") by {
      assert (p + "/")[|p|..] == "/";
    }
  }

  /** The first position of `c` in `s`. */
  function IndexOf(s: string, c: char): (k: Option<nat>)
    ensures k.None? <==> c !in s
    ensures k.Some? ==> k.value < |s| && s[k.value] == c && c !in s[..k.value]
  {
    if s == [] then None
    else if s[0] == c then Some(0)
    else
      var k := IndexOf(s[1..], c);
      assert s[1..][..0] == [];
      if k.None? then None
      else
        assert s[..k.value + 1] == [s[0]] + s[1..][..k.value];
        Some(k.value + 1)
  }

  /**
   * Reads a download address back: the file locator after `base/d/` and the
   * signature after `?sign=` (empty when there is no query string).
   */
  function ParseDownloadUrl(base: string, address: string): Option<(string, string)>
  {
    var prefix := base + "/d/";
    if !(prefix <= address) then None
    else
      var rest := address[|prefix|..];
      var q := IndexOf(rest, '?');
      if q.None? then Some((rest, ""))
      else if "?sign=" <= rest[q.value..] then Some((rest[..q.value], rest[q.value + 6..]))
      else None
  }

  /** The query string of a download address. */
  function Query(sign: string): string
  {
    if sign != "" then "?sign=" + sign else ""
  }

  /** The first occurrence is the one with no earlier occurrence. */
  lemma IndexOfFirst(s: string, c: char, k: nat)
    requires k < |s| && s[k] == c && c !in s[..k]
    ensures IndexOf(s, c) == Some(k)
  {
    var q := IndexOf(s, c).value;
    assert forall i :: 0 <= i < k ==> s[..k][i] == s[i];
    assert forall i :: 0 <= i < q ==> s[..q][i] == s[i];
  }

  /** Parsing a composed address gives back the locator and the signature. */
  lemma ParseComposed(base: string, locator: string, sign: string)
    ensures base + "/d/" <= base + "/d/" + locator + Query(sign)
    ensures '?' !in locator ==>
      ParseDownloadUrl(base, base + "/d/" + locator + Query(sign)) == Some((locator, sign))
  {
    var prefix := base + "/d/";
    var rest := locator + Query(sign);
    var address := prefix + rest;
    assert prefix + locator + Query(sign) == address;
    assert address[..|prefix|] == prefix;
    assert address[|prefix|..] == rest;
    if '?' !in locator {
      if sign == "" {
        assert rest == locator;
      } else {
        ParseSignedRest(locator, sign);
      }
    }
  }

  /** After the prefix: the first '?' is the one that starts the query string. */
  lemma ParseSignedRest(locator: string, sign: string)
    requires '?' !in locator && sign != ""
    ensures var rest := locator + Query(sign);
      && IndexOf(rest, '?') == Some(|locator|)
      && "?sign=" <= rest[|locator|..]
      && rest[..|locator|] == locator
      && rest[|locator| + 6..] == sign
  {
    var query := "?sign=" + sign;
    var rest := locator + query;
    assert rest[..|locator|] == locator;
    assert rest[|locator|..] == query;
    IndexOfFirst(rest, '?', |locator|);
    assert query[6..] == sign;
  }

  class Alist {
    /** The base address, without one trailing "/". */
    var url: string
    /** The token sent as `Authorization`; empty until a login stores one. */
    var token: string

    constructor(url: string)
      ensures !Helper.EndsWith(url, "/") ==> this.url == url
      ensures Helper.EndsWith(url, "/") ==> url == this.url + "/"
      ensures this.url == Helper.RemoveEnd(url, "/")
      ensures token == ""
    {
      this.url := Helper.RemoveEnd(url, "/");
      this.token := "";
    }

    /**
     * `toDownloadUrl(path, name, sign)`: `url/d/path/name`, with the path's
     * border slashes and the name's leading slash removed, and `?sign=` plus
     * the signature when the signature is not empty.
     */
    function ToDownloadUrl(path: string, name: string, sign: string): (r: string)
      reads this
      ensures url + "/d/" <= r
      ensures '?' !in path && '?' !in name ==>
        ParseDownloadUrl(url, r) ==
          Some((Helper.RemoveBorder(path, "/") + "/" + Helper.RemoveStart(name, "/"), sign))
    {
      var locator := Helper.RemoveBorder(path, "/") + "/" + Helper.RemoveStart(name, "/");
      var r := url + "/d/" + locator + Query(sign);
      ParseComposed(url, locator, sign);
      r
    }

    /** `getDownloadUrl(path, item)`: the item's name and signature, or no signature. */
    function GetDownloadUrl(path: string, item: Entry): (r: string)
      reads this
      ensures r == ToDownloadUrl(path, item.name, item.sign)
      ensures item.sign == "" && '?' !in url + path + item.name ==> '?' !in r
    {
      UnsignedHasNoQuery(this, path, item.name);
      ToDownloadUrl(path, item.name, item.sign)
    }

    /** The outcome of a `/api/fs/list` request for `path`. */
    function ListResult(path: string, password: string, page: int, perPage: int, refresh: bool,
                        server: Server<Listing>): Result<Listing, ApiError>
      reads this
    {
      var body := ListBody(NormalizeListPath(path), password, page, perPage, refresh);
      CheckResponse(ListEndpoint, server(url + ListEndpoint, InitFor(Some(body), token)))
    }

    /**
     * `request(endpoint, data)`: builds the options step by step, sends them to
     * the base address plus the endpoint, and checks the decoded response.
     */
    method Request<T>(endpoint: string, data: Option<Body>, server: Server<T>) returns (r: Result<T, ApiError>)
      ensures r == CheckResponse(endpoint, server(url + endpoint, InitFor(data, token)))
    {
      var verb := Get;
      var headers: map<string, string> := map[];
      if data.Some? {
        verb := Post;
        headers := headers[ContentType := JsonType];
      }
      if token != "" {
        headers := headers[Authorization := token];
      }
      var init := RequestInit(verb, headers, data);
      var response := server(url + endpoint, init);
      if response.code != 200 {
        return Failure(ApiError(endpoint, response.message));
      }
      return Success(response.data);
    }

    /** `getFileList(path, password, page, perPage, refresh)`. */
    method GetFileList(path: string, password: string, page: int, perPage: int, refresh: bool,
                       server: Server<Listing>) returns (r: Result<Listing, ApiError>)
      ensures r == ListResult(path, password, page, perPage, refresh, server)
    {
      var p := path;
      if p != "" {
        p := Helper.CompleteStart(p, "/");
        p := Helper.RemoveEnd(p, "/");
      }
      r := Request(ListEndpoint, Some(ListBody(p, password, page, perPage, refresh)), server);
    }
  }

  /**
   * A download address carries the query separator exactly once when the item
   * is signed and not at all otherwise, provided no other part contains one.
   */
  lemma DownloadUrlQueryOnce(client: Alist, path: string, name: string, sign: string)
    requires '?' !in client.url + path + name + sign
    ensures multiset(client.ToDownloadUrl(path, name, sign))['?'] == (if sign == "" then 0 else 1)
  {
    assert '?' !in path && '?' !in name && '?' !in sign && '?' !in client.url;
    NoMarkInParts(path, name, '?');
    var head := client.url + "/d/" + (Helper.RemoveBorder(path, "/") + "/" + Helper.RemoveStart(name, "/"));
    assert '?' !in head;
    CountPastHead(head, Query(sign), '?');
    QueryMarkOnce(sign);
  }

  lemma CountPastHead(head: string, tail: string, c: char)
    requires c !in head
    ensures multiset(head + tail)[c] == multiset(tail)[c]
  {
    assert multiset(head + tail) == multiset(head) + multiset(tail);
  }

  lemma QueryMarkOnce(sign: string)
    requires '?' !in sign
    ensures multiset(Query(sign))['?'] == (if sign == "" then 0 else 1)
  {
    if sign != "" {
      var tail := "sign=" + sign;
      assert Query(sign) == ['?'] + tail;
      CountPastHead(tail, ['?'], '?');
      assert multiset(['?'] + tail) == multiset(tail + ['?']);
    }
  }

  /** Without a signature, and without '?' in the parts, the address has no query separator. */
  lemma UnsignedHasNoQuery(client: Alist, path: string, name: string)
    ensures '?' !in client.url + path + name ==> '?' !in client.ToDownloadUrl(path, name, "")
  {
    if '?' !in client.url + path + name {
      assert '?' !in client.url + path + name + "";
      DownloadUrlQueryOnce(client, path, name, "");
    }
  }

  /** Removing border slashes adds no character. */
  lemma NoMarkInParts(path: string, name: string, c: char)
    requires c !in path && c !in name
    ensures c !in Helper.RemoveBorder(path, "/") && c !in Helper.RemoveStart(name, "/")
  {
    var started := Helper.RemoveStart(path, "/");
    assert c !in started by {
      if "/" <= path { assert path == "/" + started; }
    }
    var border := Helper.RemoveEnd(started, "/");
    assert c !in border by {
      if Helper.EndsWith(started, "/") { assert started == border + "/"; }
    }
    var named := Helper.RemoveStart(name, "/");
    assert c !in named by {
      if "/" <= name { assert name == "/" + named; }
    }
  }
}
