/** The username filter (src/auth/bloom-filter.service.ts) as methods over one Redis server. */
module BloomFilter {
  import opened BloomHash
  import opened HashReference
  import R = RedisService

  const BLOOM_KEY := "bloom:usernames"

  type Username = seq<CodeUnit>

  class BloomFilterService {
    const redis: R.RedisService

    constructor (redis: R.RedisService)
      ensures this.redis == redis
    {
      this.redis := redis;
    }

    function Bits(): set<nat>
      reads this, redis
    {
      redis.BitsAt(BLOOM_KEY)
    }

    /** One GETBIT of the name. */
    method Probe(username: Username, i: nat) returns (bit: bool)
      requires i < NUM_HASHES
      ensures bit <==> Positions(username)[i] in Bits()
    {
      var positions := ComputePositions(username);
      bit := positions[i] in Bits();
    }

    /** One SETBIT of the name. */
    method Mark(username: Username, i: nat)
      requires i < NUM_HASHES
      modifies redis`bitmaps
      ensures Bits() == old(Bits()) + {Positions(username)[i]}
      ensures forall key :: key != "bloom:usernames" ==> redis.BitsAt(key) == old(redis.BitsAt(key))
    {
      var positions := ComputePositions(username);
      redis.SetBit(BLOOM_KEY, positions[i], true);
    }

    /** All probes at one moment; module AuthController issues the same probes with other calls between them. */
    method MightExist(username: Username) returns (mightExist: bool)
      ensures mightExist <==> PositionSet(username) <= Bits()
      ensures mightExist <==> SlotSet(username) <= Bits()
    {
      mightExist := true;
      for i := 0 to NUM_HASHES
        invariant mightExist <==> forall k :: 0 <= k < i ==> Positions(username)[k] in Bits()
      {
        var bit := Probe(username, i);
        mightExist := mightExist && bit;
      }
      SetOfPositions(username);
      SlotSetIs(username);
    }

    method Add(username: Username)
      modifies redis`bitmaps
      ensures Bits() == old(Bits()) + PositionSet(username)
      ensures Bits() == old(Bits()) + SlotSet(username)
      ensures forall key :: key != "bloom:usernames" ==> redis.BitsAt(key) == old(redis.BitsAt(key))
    {
      for i := 0 to NUM_HASHES
        invariant Bits() == old(Bits()) + set p | p in Positions(username)[..i]
        invariant forall key :: key != "bloom:usernames" ==> redis.BitsAt(key) == old(redis.BitsAt(key))
      {
        assert Positions(username)[..i + 1] == Positions(username)[..i] + [Positions(username)[i]];
        Mark(username, i);
      }
      assert Positions(username)[..NUM_HASHES] == Positions(username);
      SlotSetIs(username);
    }
  }

  /** The identity provider's part of a registration: refused, done, or thrown after the account was created. */
  datatype Answer = Refuses | Accepts | CreatesButThrows

  datatype Outcome = Registered | Conflict | IdentityRefused | BrokenOff

  /** How a registration ends that finds the filter in this state, and what it leaves in the filter. */
  function RegisterEffect(bits: set<nat>, username: Username, answer: Answer): (Outcome, set<nat>) {
    if PositionSet(username) <= bits then (Conflict, bits) else
    match answer
    case Refuses => (IdentityRefused, bits)
    case Accepts => (Registered, bits + PositionSet(username))
    case CreatesButThrows => (BrokenOff, bits)
  }
}
