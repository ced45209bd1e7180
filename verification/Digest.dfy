/** The digest that binds an approval to the exact action: executable, arguments and payload hash, separated by NUL. */
module Digest {
  import opened Common
  import opened Execd

  /** SHA-256 in hex and the JSON encoding of an argument map, as parameters. */
  datatype Hashing = Hashing(sha256Hex: string -> string, json: map<string, string> -> string)

  const NUL: char := '\0'

  function Preimage(h: Hashing, exec: string, args: map<string, string>, payloadSha256: string): string {
    exec + [NUL] + h.json(args) + [NUL] + payloadSha256
  }

  /** Collect the parts in a buffer, then hash it. */
  method ActionDigest(h: Hashing, exec: string, args: map<string, string>, payloadSha256: string) returns (digest: string)
    ensures digest == h.sha256Hex(Preimage(h, exec, args, payloadSha256))
    ensures digest == h.sha256Hex(exec + ['\0'] + h.json(args) + ['\0'] + payloadSha256)
  {
    var buffer: string := "";
    buffer := buffer + exec;
    buffer := buffer + [NUL];
    buffer := buffer + h.json(args);
    buffer := buffer + [NUL];
    buffer := buffer + payloadSha256;
    assert buffer == Preimage(h, exec, args, payloadSha256);
    digest := h.sha256Hex(buffer);
  }

  /** JSON text of distinct maps is distinct, and JSON escapes NUL. */
  ghost predicate SoundJson(h: Hashing) {
    && (forall a, b :: h.json(a) == h.json(b) ==> a == b)
    && (forall a :: NUL !in h.json(a))
  }

  lemma SafeNameHasNoNul(name: string)
    requires SafeExecName(name)
    ensures NUL !in name
  {
    assert forall i :: 0 <= i < |name| ==> SafeChar(name[i]);
  }

  /** Equal digests of actions with safe names mean equal actions, or a hash collision between their texts. */
  lemma DigestDeterminesAction(h: Hashing,
                               exec: string, args: map<string, string>, sha: string,
                               exec': string, args': map<string, string>, sha': string)
    requires SoundJson(h) && SafeExecName(exec) && SafeExecName(exec')
    requires h.sha256Hex(Preimage(h, exec, args, sha)) == h.sha256Hex(Preimage(h, exec', args', sha'))
    ensures (exec == exec' && args == args' && sha == sha')
         || Collision(h.sha256Hex, Preimage(h, exec, args, sha), Preimage(h, exec', args', sha'))
  {
    if Preimage(h, exec, args, sha) == Preimage(h, exec', args', sha') {
      SafeNameHasNoNul(exec);
      SafeNameHasNoNul(exec');
      var rest, rest' := h.json(args) + [NUL] + sha, h.json(args') + [NUL] + sha';
      assert Preimage(h, exec, args, sha) == exec + [NUL] + rest;
      assert Preimage(h, exec', args', sha') == exec' + [NUL] + rest';
      SplitOnce(exec, rest, exec', rest', NUL);
      SplitOnce(h.json(args), sha, h.json(args'), sha', NUL);
    }
  }
}
