/** The lengths of an encrypted download. The cipher itself is a library; of it the model keeps the
    number of bytes it holds back (section 6.1.1 of RFC 8018 fixes the padding of the last block). */
module Encryption {

  const MAGIC := "Salted__"
  const MAGIC_LEN: nat := 8
  const SALT_LEN: nat := 8
  const CIPHER_BLOCK: nat := 8

  /** expectedSize(): the length announced to the client for insize bytes. */
  function ExpectedSize(insize: nat): nat {
    var blocks := insize / 8 + 1;
    blocks * 8 + MAGIC_LEN + SALT_LEN
  }

  function Sum(ns: seq<nat>): nat {
    if ns == [] then 0 else Sum(ns[..|ns| - 1]) + ns[|ns| - 1]
  }

  lemma {:induction false} SumAdds(a: seq<nat>, b: seq<nat>, n: nat)
    ensures Sum([]) == 0 && Sum([n]) == n && Sum(a + b) == Sum(a) + Sum(b)
  {
    assert [n][..0] == [];
    if b == [] {
      assert a + b == a;
    } else {
      SumAdds(a, b[..|b| - 1], n);
      assert (a + b)[..|a + b| - 1] == a + b[..|b| - 1];
    }
  }

  /** Results of the methods that throw EncryptError. */
  datatype Result = Ok(size: nat) | Error(message: string)

  /** inBuffer is the output buffer, inBufferSize the size the class believes it to have. */
  class Encrypt {
    var ready: bool
    var held: nat
    var started: bool
    var salt: string
    var inBuffer: array<char>
    var inBufferSize: nat

    ghost predicate Valid()
      reads this
    {
      && held < CIPHER_BLOCK && inBufferSize == 0 && |salt| == SALT_LEN
      && (started ==> ready) && (held > 0 ==> started)
    }

    constructor ()
      ensures Valid() && !ready && !started
    {
      ready, held, started, inBufferSize := false, 0, false, 0;
      salt := seq(SALT_LEN, _ => '\0');
      inBuffer := new char[0];
    }

    /** initContext(), once a password was found. */
    method InitContext(newSalt: string) returns (done: bool)
      requires Valid() && |newSalt| == SALT_LEN
      modifies `ready, `held, `salt
      ensures Valid() && done == !old(started)
      ensures done ==> ready && !started && held == 0 && salt == newSalt
      ensures !done ==> ready == old(ready) && held == old(held) && salt == old(salt)
    {
      if started {
        return false;
      }
      ready, held, salt := true, 0, newSalt;
      return true;
    }

    method Reset()
      modifies `ready, `held, `started, `salt
      ensures !ready && !started && held == 0 && |salt| == SALT_LEN
    {
      salt := seq(SALT_LEN, _ => '\0');
      ready, held, started := false, 0, false;
    }

    /** maxBlockSize() for a ready context. */
    function MaxBlockSize(block: nat): nat {
      MAGIC_LEN + SALT_LEN + block + CIPHER_BLOCK - 1
    }

    /** realloc() to size, unless the buffer is known to be larger. */
    method ResizeOutput(size: nat)
      requires Valid() && size > 0
      modifies this
      ensures Valid() && inBuffer.Length == size && fresh(inBuffer)
      ensures ready == old(ready) && held == old(held) && started == old(started) && salt == old(salt)
    {
      if size > inBufferSize {
        inBuffer := new char[size];
      }
    }

    /** EVP_EncryptUpdate: all whole blocks come out, the rest is held back. The precondition is
        that what comes out fits into the buffer from index at on. */
    method EncryptUpdate(at: nat, inbufl: nat) returns (n: nat)
      requires Valid() && ready && started && at + (held + inbufl) / CIPHER_BLOCK * CIPHER_BLOCK <= inBuffer.Length
      modifies `held
      ensures Valid() && n == (old(held) + inbufl) / CIPHER_BLOCK * CIPHER_BLOCK
      ensures held == (old(held) + inbufl) % CIPHER_BLOCK
    {
      n := (held + inbufl) / CIPHER_BLOCK * CIPHER_BLOCK;
      held := (held + inbufl) % CIPHER_BLOCK;
    }

    /** update(): the first one is preceded by the magic bytes and the salt. A failing call of the
        cipher resets the context. */
    method Update(inbufl: nat, cipherFails: bool) returns (r: Result)
      requires Valid()
      modifies this
      ensures Valid() && (r.Error? <==> !old(ready) || cipherFails)
      ensures !old(ready) ==> held == old(held) && started == old(started) && ready == old(ready)
      ensures r.Error? ==> !ready && !started && held == 0 && (fresh(inBuffer) || inBuffer == old(inBuffer))
      ensures r.Ok? ==>
                && ready && started && r.size <= inBuffer.Length && fresh(inBuffer)
                && held == (old(held) + inbufl) % CIPHER_BLOCK
                && r.size + held == old(held) + inbufl + (if old(started) then 0 else 16)
                && salt == old(salt)
      ensures r.Ok? ==> inBuffer.Length == 16 + inbufl + 7
      ensures r.Ok? && !old(started) ==> r.size >= 16 && inBuffer[..16] == "Salted__" + old(salt)
    {
      if !ready {
        return Error("context was not initialized");
      }
      var outbufl := 0;
      ResizeOutput(MaxBlockSize(inbufl));
      if !started {
        Header();
        outbufl := MAGIC_LEN + SALT_LEN;
        started := true;
      }
      if cipherFails {
        Reset();
        return Error("error in encrypt update");
      }
      var n := EncryptUpdate(outbufl, inbufl);
      return Ok(outbufl + n);
    }

    /** The magic bytes and the salt, byte by byte. */
    method Header()
      requires MAGIC_LEN + SALT_LEN <= inBuffer.Length && |salt| == SALT_LEN
      modifies inBuffer
      ensures inBuffer[..MAGIC_LEN + SALT_LEN] == MAGIC + salt
    {
      var k := 0;
      while k < MAGIC_LEN + SALT_LEN
        invariant k <= MAGIC_LEN + SALT_LEN && inBuffer[..k] == (MAGIC + salt)[..k]
      {
        inBuffer[k] := (MAGIC + salt)[k];
        k := k + 1;
      }
      assert (MAGIC + salt)[..k] == MAGIC + salt;
    }

    /** finish(): always one block of padding; then, and when the cipher fails, the context is gone. */
    method Finish(cipherFails: bool) returns (r: Result)
      requires Valid()
      modifies this
      ensures Valid() && (r.Error? <==> !old(started) || cipherFails)
      ensures r.Ok? ==> r.size == CIPHER_BLOCK && r.size <= inBuffer.Length && inBuffer.Length == 16 + 7
      ensures if old(started) then !ready && !started && held == 0
              else ready == old(ready) && started == old(started) && held == old(held)
      ensures fresh(inBuffer) || inBuffer == old(inBuffer)
    {
      if !started {
        return Error("encryption not started");
      }
      ResizeOutput(MaxBlockSize(0));
      assert CIPHER_BLOCK <= inBuffer.Length;
      if cipherFails {
        Reset();
        return Error("error in final encryption");
      }
      Reset();
      return Ok(CIPHER_BLOCK);
    }
  }

  /** The number of bytes that come out of update calls with n bytes in all, and finish. */
  function OutputSize(started: bool, held: nat, n: nat): nat {
    (if started then 0 else MAGIC_LEN + SALT_LEN) + (held + n) / CIPHER_BLOCK * CIPHER_BLOCK + CIPHER_BLOCK
  }

  /** The announced length is right if and only if the context had not been used before. */
  lemma AnnouncedExactly(started: bool, held: nat, n: nat)
    requires held < CIPHER_BLOCK && (held > 0 ==> started)
    ensures OutputSize(started, held, n) == ExpectedSize(n) <==> !started
    ensures started ==> OutputSize(started, held, n) < ExpectedSize(n)
  {
  }

  /** An encrypted download of nothing is the magic bytes, the salt and one block, and every 8 bytes more
      make one block more. */
  lemma AnnouncedInBlocks(n: nat)
    ensures ExpectedSize(0) == |"Salted__"| + 8 + 8 && ExpectedSize(n + 8) == ExpectedSize(n) + 8
    ensures n < ExpectedSize(n) - 16 <= n + 8 && ExpectedSize(n) % 8 == 0
  {
  }

  /** The first bytes of a download that finds the context unused: the magic bytes and the new salt. */
  method BeginDownload(e: Encrypt, salt: string, inbufl: nat) returns (r: Result)
    requires e.Valid() && !e.ready && |salt| == SALT_LEN
    modifies e, e.inBuffer
    ensures r.Ok? && r.size >= 16 && r.size <= e.inBuffer.Length && e.inBuffer[..16] == "Salted__" + salt
  {
    PrepareDownload(e, salt);
    r := e.Update(inbufl, false);
  }

  /** Any number of update calls. */
  method UpdateAll(e: Encrypt, inputs: seq<nat>) returns (total: nat)
    requires e.Valid() && e.ready
    modifies e, e.inBuffer
    ensures e.Valid() && e.ready && (e.started <==> old(e.started) || inputs != [])
    ensures fresh(e.inBuffer) || e.inBuffer == old(e.inBuffer)
    ensures e.held == (old(e.held) + Sum(inputs)) % CIPHER_BLOCK
    ensures total + e.held ==
            old(e.held) + Sum(inputs) + if e.started && !old(e.started) then MAGIC_LEN + SALT_LEN else 0
  {
    total := 0;
    var i := 0;
    while i < |inputs|
      invariant i <= |inputs| && e.Valid() && e.ready && (e.started <==> old(e.started) || i > 0)
      invariant fresh(e.inBuffer) || e.inBuffer == old(e.inBuffer)
      invariant e.held == (old(e.held) + Sum(inputs[..i])) % CIPHER_BLOCK
      invariant total + e.held ==
                old(e.held) + Sum(inputs[..i]) + if e.started && !old(e.started) then MAGIC_LEN + SALT_LEN else 0
    {
      assert inputs[..i + 1][..i] == inputs[..i];
      var r := e.Update(inputs[i], false);
      total := total + r.size;
      i := i + 1;
    }
    assert inputs[..i] == inputs;
  }

  /** A whole encryption: any non-empty sequence of update calls, then finish. The output is as
      long as announced if and only if the context is fresh. */
  method EncryptAll(e: Encrypt, inputs: seq<nat>) returns (total: nat)
    requires e.Valid() && e.ready && inputs != []
    modifies e, e.inBuffer
    ensures e.Valid() && !e.ready && !e.started
    ensures total == OutputSize(old(e.started), old(e.held), Sum(inputs))
    ensures total == ExpectedSize(Sum(inputs)) <==> !old(e.started)
  {
    AnnouncedExactly(e.started, e.held, Sum(inputs));
    total := UpdateAll(e, inputs);
    var r := e.Finish(false);
    total := total + r.size;
  }

  /** The start of a download: the context is initialized only if it is not ready. */
  method PrepareDownload(e: Encrypt, salt: string)
    requires e.Valid() && |salt| == SALT_LEN
    modifies e`ready, e`held, e`salt
    ensures e.Valid() && e.ready
    ensures if old(e.ready) then e.held == old(e.held) && e.salt == old(e.salt)
            else !e.started && e.held == 0 && e.salt == salt
  {
    if !e.ready {
      var done := e.InitContext(salt);
    }
  }

  /** Dropping a download does not reset the context, so the next encrypted download on the same
      connection is shorter than announced. */
  method AbandonThenDownload(e: Encrypt, salt: string, dropped: seq<nat>, inputs: seq<nat>) returns (total: nat)
    requires e.Valid() && |salt| == SALT_LEN && dropped != [] && inputs != []
    modifies e, e.inBuffer
    ensures total < ExpectedSize(Sum(inputs))
  {
    PrepareDownload(e, salt);
    var sent := UpdateAll(e, dropped);
    PrepareDownload(e, salt);
    AnnouncedExactly(e.started, e.held, Sum(inputs));
    total := EncryptAll(e, inputs);
  }

  /** A download whose last block fails: the code catches the exception and goes on, and finish() has
      reset the context, so the next download on the same connection is as long as announced. */
  method FailThenDownload(e: Encrypt, salt: string, failed: seq<nat>, inputs: seq<nat>) returns (total: nat)
    requires e.Valid() && |salt| == SALT_LEN && failed != [] && inputs != []
    modifies e, e.inBuffer
    ensures total == ExpectedSize(Sum(inputs))
  {
    PrepareDownload(e, salt);
    var sent := UpdateAll(e, failed);
    var r := e.Finish(true);
    PrepareDownload(e, salt);
    total := EncryptAll(e, inputs);
  }
}
