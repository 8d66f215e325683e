/** Small value types shared by the backend and the admin pages. */
module Values {

  /** An optional value: a JSON field that may be absent, a fetch that may fail. */
  datatype Option<+T> = None | Some(value: T)

  /** Record identifiers of the students and faculties tables (uuid strings). */
  type Id = string

  /** JavaScript truthiness of a request-body field: present and not the empty string. */
  predicate Truthy(field: Option<string>)
  {
    field.Some? && field.value != ""
  }

  /** The activation flag flip used by the server and the faculty page:
      0 becomes 1 and every other value becomes 0. */
  function Flip(flag: int): (r: int)
    ensures r == 0 || r == 1
    ensures r == 1 <==> flag == 0
  {
    if flag == 0 then 1 else 0
  }

  /** The two activation states are exactly the values a flip can produce. */
  predicate IsFlag(flag: int)
  {
    flag == 0 || flag == 1
  }
}
