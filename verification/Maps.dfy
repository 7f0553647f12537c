/** C++ maps read with `operator[]`, which yields a default value for an unbound key. */
module Maps {

  function Lookup<K(==), V>(m: map<K, V>, k: K, otherwise: V): V {
    if k in m then m[k] else otherwise
  }
}
