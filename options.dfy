/** The optional value used wherever Python code returns or receives None. */
module Options {

  datatype Option<+T> = None | Some(value: T)

  /** dict.get(key) on a string-keyed dictionary: None when the key is missing. */
  function Lookup<V>(m: map<string, V>, key: string): Option<V>
  {
    if key in m then Some(m[key]) else None
  }

  /** Python's `not v` for a value that is None or a string: absent or empty. */
  predicate Blank(v: Option<string>)
  {
    v.None? || v.value == ""
  }

  /** The smaller of two naturals. */
  function Min(a: nat, b: nat): nat
  {
    if a <= b then a else b
  }
}
