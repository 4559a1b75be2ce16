/**
 * `Authorization`: the older credentials holder, which reads its store file
 * once, when it is made.
 */
module Authorization {
  import opened Common
  import opened Dict
  import opened Files
  import opened AuthFile

  class Authorization {
    var store: string
    var auth: Dict<string>

    constructor (store: string)
      ensures this.store == store && auth == []
    {
      this.store := store;
      auth := [];
    }

    /** `__init__`'s reading of the store: the lines parsed up to the first bad one. */
    method Load(fs: FileSystem) returns (err: Option<PyError>)
      modifies this
      ensures store == old(store)
      ensures match ReadFile(fs.State(), store)
        case Err(e) => err == Some(e) && auth == old(auth)
        case Ok(text) => Parse(auth, err) == ParseAuth(ReadLines(text))
    {
      var text := fs.Read(store);
      match text {
        case Err(e) =>
          return Some(e);
        case Ok(t) =>
          auth, err := ParseAuthLines(ReadLines(t));
      }
    }

    /** `get_auth` */
    function GetAuth(): Dict<string>
      reads this
    {
      auth
    }

    /** `get_headers`: it fails unless both credentials are there, and then carries the token under the Bearer scheme. */
    function GetHeaders(): (h: Result<Dict<string>>)
      reads this
      ensures h.Ok? <==> "client_id" in Keys(auth) && "oauth" in Keys(auth)
      ensures h.Ok? ==> Get(h.value, "Authorization") == Some("Bearer " + Get(auth, "oauth").value)
    {
      HeadersIff(auth);
      Headers(auth)
    }
  }

  /** `Authorization(store)`, the store being `_AUTH` unless another is named. */
  method Create(fs: FileSystem, store: string := "_AUTH") returns (r: Result<Authorization>)
    ensures match ReadFile(fs.State(), store)
      case Err(e) => r == Err(e)
      case Ok(text) =>
        match ParseAuth(ReadLines(text))
        case Parse(auth, None) => r.Ok? && fresh(r.value) && r.value.store == store && r.value.auth == auth
        case Parse(_, Some(e)) => r == Err(e)
  {
    var a := new Authorization(store);
    var err := a.Load(fs);
    match err {
      case Some(e) => r := Err(e);
      case None => r := Ok(a);
    }
  }
}
