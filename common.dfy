/** Values shared by every handler: optional request fields, HTTP replies,
    the decoded token payload (`req.user`) and JavaScript's truthiness and
    blank-string tests as the handlers apply them to request strings. */
module Common {

  datatype Option<+T> = None | Some(value: T)

  /** What a handler sends: a success status with a body, or an error
      status with the JSON `message` the handler writes. */
  datatype Response<+T> =
    | Success(code: int, body: T)
    | Failure(code: int, message: string)

  /** The payload of a signed token, as `jwt.verify` hands it to `req.user`.
      Tokens issued at login carry no names. */
  datatype Claims = Claims(
    id: nat,
    email: string,
    role: string,
    firstName: Option<string>,
    lastName: Option<string>)

  /** `if (s)` on a request field: absent (undefined or null) and the
      empty string are falsy, every other string is truthy. */
  predicate Truthy(s: Option<string>)
  {
    s.Some? && s.value != ""
  }

  /** The characters `String.prototype.trim` strips: ECMAScript WhiteSpace
      and LineTerminator code points. */
  predicate IsTrimmed(c: char)
  {
    var n := c as int;
    n == 0x09 || n == 0x0A || n == 0x0B || n == 0x0C || n == 0x0D || n == 0x20
    || n == 0xA0 || n == 0x1680 || (0x2000 <= n <= 0x200A) || n == 0x2028
    || n == 0x2029 || n == 0x202F || n == 0x205F || n == 0x3000 || n == 0xFEFF
  }

  /** `s && s.trim() !== ''`: present and holding a character trim keeps. */
  predicate NonBlank(s: Option<string>)
  {
    s.Some? && exists i :: 0 <= i < |s.value| && !IsTrimmed(s.value[i])
  }
}
