// How CAddrInfo turns an address into buckets (src/addrman.cpp:12-31), and the
// spreading that src/addrman.h promises of it.

module AddrManHash {
  import opened AddrManState

  // The keyed hash, cut to 64 bits, and the network group of an address.
  datatype Hashing = Hashing(cheapHash: seq<nat> -> nat, group: NetAddr -> seq<nat>)

  function TriedBucket(h: Hashing, key: nat, s: Service): nat {
    var hash1 := h.cheapHash([key, s.addr.ip, s.port]);
    var hash2 := h.cheapHash([key] + h.group(s.addr) + [hash1 % TRIED_BUCKETS_PER_GROUP]);
    hash2 % TRIED_BUCKET_COUNT
  }

  function NewBucket(h: Hashing, key: nat, s: Service, source: NetAddr): nat {
    var hash1 := h.cheapHash([key] + h.group(s.addr) + h.group(source));
    var hash2 := h.cheapHash([key] + h.group(source) + [hash1 % NEW_BUCKETS_PER_SOURCE_GROUP]);
    hash2 % NEW_BUCKET_COUNT
  }

  function Position(h: Hashing, key: nat, isNew: bool, bucket: nat, s: Service): nat {
    h.cheapHash([key, if isNew then 'N' as nat else 'K' as nat, bucket, s.addr.ip, s.port]) % BUCKET_SIZE
  }

  function HashEnv(h: Hashing, routable: NetAddr -> bool): Env {
    Env((key, s) => TriedBucket(h, key, s),
        (key, s, source) => NewBucket(h, key, s, source),
        (key, isNew, bucket, s) => Position(h, key, isNew, bucket, s),
        routable)
  }

  // Whatever the hash, an entry hashes into the tables.
  lemma HashEnvOk(h: Hashing, routable: NetAddr -> bool)
    ensures EnvOk(HashEnv(h, routable))
  {
  }

  // The images of 0, ..., n - 1 under a function, taken modulo m.
  function Choices(f: nat -> nat, n: nat, m: nat): set<nat>
    requires m > 0
  {
    set k: nat | k < n :: f(k) % m
  }

  lemma {:induction false} ChoicesBounded(f: nat -> nat, n: nat, m: nat)
    requires m > 0
    ensures |Choices(f, n, m)| <= n
  {
    if n == 0 {
      assert Choices(f, 0, m) == {};
    } else {
      ChoicesBounded(f, n - 1, m);
      assert Choices(f, n, m) == Choices(f, n - 1, m) + {f(n - 1) % m};
    }
  }

  // All addresses of one group together reach at most 8 tried buckets, however many
  // there are.
  lemma {:induction false} GroupReachesFewTriedBuckets(h: Hashing, key: nat, g: seq<nat>) returns (reach: set<nat>)
    ensures |reach| <= TRIED_BUCKETS_PER_GROUP
    ensures forall s: Service :: h.group(s.addr) == g ==> TriedBucket(h, key, s) in reach
  {
    var f := (k: nat) => h.cheapHash([key] + g + [k]);
    reach := Choices(f, TRIED_BUCKETS_PER_GROUP, TRIED_BUCKET_COUNT);
    ChoicesBounded(f, TRIED_BUCKETS_PER_GROUP, TRIED_BUCKET_COUNT);
    forall s: Service | h.group(s.addr) == g
      ensures TriedBucket(h, key, s) in reach
    {
      var k := h.cheapHash([key, s.addr.ip, s.port]) % TRIED_BUCKETS_PER_GROUP;
      assert TriedBucket(h, key, s) == f(k) % TRIED_BUCKET_COUNT;
    }
  }

  // All addresses learned from sources of one group reach at most 64 new buckets.
  lemma {:induction false} SourceReachesFewNewBuckets(h: Hashing, key: nat, g: seq<nat>) returns (reach: set<nat>)
    ensures |reach| <= NEW_BUCKETS_PER_SOURCE_GROUP
    ensures forall s: Service, source: NetAddr :: h.group(source) == g ==> NewBucket(h, key, s, source) in reach
  {
    var f := (k: nat) => h.cheapHash([key] + g + [k]);
    reach := Choices(f, NEW_BUCKETS_PER_SOURCE_GROUP, NEW_BUCKET_COUNT);
    ChoicesBounded(f, NEW_BUCKETS_PER_SOURCE_GROUP, NEW_BUCKET_COUNT);
    forall s: Service, source: NetAddr | h.group(source) == g
      ensures NewBucket(h, key, s, source) in reach
    {
      var k := h.cheapHash([key] + h.group(s.addr) + h.group(source)) % NEW_BUCKETS_PER_SOURCE_GROUP;
      assert NewBucket(h, key, s, source) == f(k) % NEW_BUCKET_COUNT;
    }
  }
}
