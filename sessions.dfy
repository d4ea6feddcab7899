/** The per-request session reached through the session cookie: a key/value
    map, plus the id of the user the authentication service bound to it. */
module Sessions {
  import opened Store

  /** The session key of the one-shot error message shown by the form pages. */
  const LastErrorKey: string := "last_error"

  class Session {
    var values: map<string, string>
    var userId: Option<nat>

    constructor ()
      ensures values == map[] && userId == None
    {
      values, userId := map[], None;
    }

    function Get(key: string): Option<string>
      reads this
    {
      if key in values then Some(values[key]) else None
    }

    method Set(key: string, value: string)
      modifies this
      ensures values == old(values)[key := value]
      ensures userId == old(userId)
    {
      values := values[key := value];
    }

    method Delete(key: string)
      modifies this
      ensures values == old(values) - {key}
      ensures userId == old(userId)
    {
      values := values - {key};
    }
  }
}
