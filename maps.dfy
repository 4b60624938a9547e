/** Facts about map updates shared by the modules that build maps key by key. */
module Maps {

  /** Updating one key leaves the others. */
  lemma MapUpdateOther<K, V>(m: map<K, V>, k: K, v: V, j: K)
    requires j in m && j != k
    ensures j in m[k := v] && m[k := v][j] == m[j]
  {
  }
}
