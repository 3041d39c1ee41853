// What a writer that may break has sent.
module Output {
  import opened Text

  // A write that succeeds sends all of e, one that fails some prefix of it.
  predicate Wrote(was: bytes, e: bytes, now: bytes, ok: bool)
  {
    if ok then now == was + e else was <= now <= was + e
  }

  // One write after another.
  lemma WroteMore(was: bytes, a: bytes, b: bytes, now: bytes, ok: bool)
    requires Wrote(was + a, b, now, ok) || (!ok && Wrote(was, a, now, false))
    ensures Wrote(was, a + b, now, ok)
  {
    assert was + a + b == was + (a + b);
  }
}
