/**
 * The shop where players buy special tiles with points
 * (specialtile/store/SpecialTileStoreBuilder.java,
 * specialtile/store/SpecialTileStore.java), and the five default tile
 * factories with the prices the game registers them at
 * (specialtile/defaults/DefaultSpecialTileFactories.java, game/SWSGame.java).
 *
 * A factory is identified with the kind of tile it creates: each default
 * factory's `create(p)` is `new XSpecialTile(p)` for its own kind X.
 */
module Stores {
  import opened Wrappers
  import opened Players

  /**
   * The identifier of the skip-turn tile. Its class is not part of this
   * model, so the string is left open; all the model assumes is that it
   * differs from the four other identifiers (see `SkipIdentifierDistinct`).
   */
  const SkipTurnIdentifier: string

  /** The skip-turn identifier is none of the four known ones, as registering all five defaults needs. */
  predicate SkipIdentifierDistinct()
  {
    SkipTurnIdentifier !in ["Negate Points", "Reverse Order", "Boom", "Steal Score"]
  }

  /** `identifier()` of a factory, which is the static identifier of its tile class. */
  function Identifier(k: SpecialKind): string
  {
    match k
    case NegativePoints => "Negate Points"
    case Reverse => "Reverse Order"
    case Boom => "Boom"
    case StealScore => "Steal Score"
    case SkipTurn => SkipTurnIdentifier
  }

  /** No two factories share an identifier, so registering all five cannot clash. */
  lemma IdentifierInjective(k: SpecialKind, k': SpecialKind)
    requires SkipIdentifierDistinct()
    ensures Identifier(k) == Identifier(k') <==> k == k'
  {
    if k != k' && k != SkipTurn && k' != SkipTurn {
      assert Identifier(k)[0] != Identifier(k')[0] || |Identifier(k)| != |Identifier(k')|;
    }
  }

  /** `DefaultSpecialTileFactories.values()`, in declaration order. */
  const DefaultFactories: seq<SpecialKind> := [NegativePoints, Reverse, Boom, StealScore, SkipTurn]

  /** Every kind is one of the defaults, exactly once. */
  lemma DefaultFactoriesAreAllKinds(k: SpecialKind)
    ensures k in DefaultFactories
    ensures forall i, j :: 0 <= i < j < |DefaultFactories| ==> DefaultFactories[i] != DefaultFactories[j]
  {
  }

  /** `TILE_PRICES`: what the game charges for each default tile. */
  function DefaultPrice(k: SpecialKind): (price: int)
    ensures 10 <= price <= 25
  {
    match k
    case NegativePoints => 20
    case Reverse => 10
    case Boom => 18
    case StealScore => 25
    case SkipTurn => 15
  }

  /** `factory.create(owner)`: a fresh tile of the factory's kind owned by `owner`. */
  method CreateTile(k: SpecialKind, owner: Player) returns (t: SpecialTile)
    ensures fresh(t) && t.kind == k && t.owner == owner
  {
    t := new SpecialTile(k, owner);
  }

  /** The builder: two maps keyed by identifier that register and unregister update in place. */
  class SpecialTileStoreBuilder {
    var factories: map<string, SpecialKind>
    var prices: map<string, int>

    /**
     * What register and unregister keep: the two maps have the same keys,
     * every factory is filed under its own identifier, and every price is
     * at least 1.
     */
    ghost predicate Valid()
      reads this
    {
      && factories.Keys == prices.Keys
      && (forall id :: id in factories ==> Identifier(factories[id]) == id)
      && (forall id :: id in prices ==> prices[id] >= 1)
    }

    /** A builder with nothing registered. */
    constructor ()
      ensures factories == map[] && prices == map[]
      ensures Valid()
    {
      factories := map[];
      prices := map[];
    }

    /** `hasSpecialTile`. */
    predicate HasSpecialTile(id: string)
      reads this
    {
      id in factories
    }

    /**
     * `registerSpecialTileFactory`: refuses an identifier already present,
     * then a price below 1; otherwise files the factory and its price under
     * the factory's identifier.
     */
    method RegisterSpecialTileFactory(factory: SpecialKind, price: int) returns (r: Result<()>)
      modifies this
      ensures r == if Identifier(factory) in old(factories) then Err(IllegalArgument("Identifier has already been registered."))
        else if price < 1 then Err(IllegalArgument("Price of special tile must be > 0."))
        else Ok(())
      ensures r.Err? ==> factories == old(factories) && prices == old(prices)
      ensures r.Ok? ==>
        factories == old(factories)[Identifier(factory) := factory] &&
        prices == old(prices)[Identifier(factory) := price]
      ensures old(Valid()) ==> Valid()
    {
      if HasSpecialTile(Identifier(factory)) {
        return Err(IllegalArgument("Identifier has already been registered."));
      }
      if price < 1 {
        return Err(IllegalArgument("Price of special tile must be > 0."));
      }
      factories := factories[Identifier(factory) := factory];
      prices := prices[Identifier(factory) := price];
      return Ok(());
    }

    /** `unregisterSpecialTileFactory`: refuses an identifier not present, otherwise drops it from both maps. */
    method UnregisterSpecialTileFactory(factory: SpecialKind) returns (r: Result<()>)
      modifies this
      ensures r.Err? <==> Identifier(factory) !in old(factories)
      ensures r.Err? ==>
        r.fault == IllegalArgument("This factory was not registered before.") &&
        factories == old(factories) && prices == old(prices)
      ensures r.Ok? ==>
        factories == old(factories) - {Identifier(factory)} && prices == old(prices) - {Identifier(factory)}
      ensures old(Valid()) ==> Valid()
    {
      if !HasSpecialTile(Identifier(factory)) {
        return Err(IllegalArgument("This factory was not registered before."));
      }
      factories := factories - {Identifier(factory)};
      prices := prices - {Identifier(factory)};
      return Ok(());
    }

    /** `construct`: a store over this builder's own maps, so later registrations show through it. */
    method Construct() returns (store: SpecialTileStore)
      ensures fresh(store) && store.maps == this
    {
      store := new SpecialTileStore(this);
    }
  }

  /**
   * The store. Java wraps the builder's maps in read-only views, so the
   * store sees every later change to them: it holds the builder itself.
   */
  class SpecialTileStore {
    const maps: SpecialTileStoreBuilder

    constructor (maps: SpecialTileStoreBuilder)
      ensures this.maps == maps
    {
      this.maps := maps;
    }

    /** `hasSpecialTile`. */
    predicate HasSpecialTile(id: string)
      reads maps
    {
      id in maps.factories
    }

    /**
     * `priceOfSpecialTile`: throws for an unknown identifier; unboxing a
     * missing price would throw too, which a valid builder never has.
     */
    function PriceOfSpecialTile(id: string): (r: Result<int>)
      reads maps
      ensures r.Err? <==> id !in maps.factories || id !in maps.prices
      ensures id !in maps.factories ==> r == Err(IllegalArgument("Identifier Not Found."))
      ensures r.Ok? ==> r.value == maps.prices[id]
      ensures maps.Valid() ==> (r.Ok? <==> HasSpecialTile(id)) && (r.Ok? ==> r.value >= 1)
    {
      if id !in maps.factories then Err(IllegalArgument("Identifier Not Found."))
      else if id !in maps.prices then Err(NullPointer)
      else Ok(maps.prices[id])
    }

    /**
     * `buySpecialTile`: throws for an unknown identifier; otherwise ADDS the
     * price to the buyer's score (the documentation says it charges them) and
     * appends one fresh tile of the factory's kind, owned by the buyer.
     */
    method BuySpecialTile(player: Player, id: string) returns (r: Result<()>)
      modifies player`score, player`specialTiles
      ensures r.Err? <==> id !in maps.factories || id !in maps.prices
      ensures id !in maps.factories ==> r == Err(IllegalArgument("Identifier Not Found."))
      ensures r.Err? ==> player.score == old(player.score) && player.specialTiles == old(player.specialTiles)
      ensures r.Ok? ==> player.score == old(player.score) + maps.prices[id]
      ensures r.Ok? ==>
        |player.specialTiles| == |old(player.specialTiles)| + 1 &&
        player.specialTiles[..|old(player.specialTiles)|] == old(player.specialTiles)
      ensures r.Ok? ==>
        var t := player.specialTiles[|old(player.specialTiles)|];
        fresh(t) && t.kind == maps.factories[id] && t.owner == player
    {
      if !HasSpecialTile(id) {
        return Err(IllegalArgument("Identifier Not Found."));
      }
      var factory := maps.factories[id];
      if id !in maps.prices {
        return Err(NullPointer);
      }
      var price := maps.prices[id];
      player.SetScore(player.score + price);
      var t := CreateTile(factory, player);
      player.specialTiles := player.specialTiles + [t];
      return Ok(());
    }

    /** `purchasableTileDescriptions`: every registered identifier once, in the map's iteration order. */
    method PurchasableTileDescriptions() returns (ids: seq<string>)
      ensures forall id :: id in ids <==> id in maps.factories
      ensures |ids| == |maps.factories|
    {
      ids := [];
      var rest := maps.factories.Keys;
      while rest != {}
        invariant rest !! (set id | id in ids)
        invariant rest + (set id | id in ids) == maps.factories.Keys
        invariant |ids| + |rest| == |maps.factories.Keys|
        decreases |rest|
      {
        var id :| id in rest;
        ids := ids + [id];
        rest := rest - {id};
      }
    }
  }

  /** One round of the default store's loop: the next default factory is registered at its default price. */
  method RegisterDefault(builder: SpecialTileStoreBuilder, i: nat)
    requires SkipIdentifierDistinct()
    requires i < |DefaultFactories| && builder.Valid()
    requires builder.factories.Keys == set k | k in DefaultFactories[..i] :: Identifier(k)
    requires forall k :: k in DefaultFactories[..i] ==>
      builder.factories[Identifier(k)] == k && builder.prices[Identifier(k)] == DefaultPrice(k)
    modifies builder
    ensures builder.Valid()
    ensures builder.factories.Keys == set k | k in DefaultFactories[..i + 1] :: Identifier(k)
    ensures forall k :: k in DefaultFactories[..i + 1] ==>
      builder.factories[Identifier(k)] == k && builder.prices[Identifier(k)] == DefaultPrice(k)
  {
    var factory := DefaultFactories[i];
    forall k | k in DefaultFactories[..i] ensures Identifier(k) != Identifier(factory) {
      IdentifierInjective(k, factory);
    }
    var registered := builder.RegisterSpecialTileFactory(factory, DefaultPrice(factory));
    assert registered.Ok?;
    assert DefaultFactories[..i + 1] == DefaultFactories[..i] + [factory];
  }

  /**
   * The store the game builds: each default factory registered in turn at
   * its default price. No registration fails, and the store then sells
   * exactly the five default tiles at their default prices.
   */
  method DefaultStore() returns (store: SpecialTileStore)
    requires SkipIdentifierDistinct()
    ensures fresh(store) && fresh(store.maps) && store.maps.Valid()
    ensures store.maps.factories.Keys == set k | k in DefaultFactories :: Identifier(k)
    ensures forall k :: Identifier(k) in store.maps.factories && store.maps.factories[Identifier(k)] == k
    ensures forall k :: store.maps.prices[Identifier(k)] == DefaultPrice(k)
  {
    var builder := new SpecialTileStoreBuilder();
    var i := 0;
    while i < |DefaultFactories|
      invariant 0 <= i <= |DefaultFactories|
      invariant builder.Valid()
      invariant builder.factories.Keys == set k | k in DefaultFactories[..i] :: Identifier(k)
      invariant forall k :: k in DefaultFactories[..i] ==>
        builder.factories[Identifier(k)] == k && builder.prices[Identifier(k)] == DefaultPrice(k)
    {
      RegisterDefault(builder, i);
      i := i + 1;
    }
    assert DefaultFactories[..i] == DefaultFactories;
    forall k ensures Identifier(k) in builder.factories && builder.factories[Identifier(k)] == k {
      DefaultFactoriesAreAllKinds(k);
    }
    store := builder.Construct();
  }
}
