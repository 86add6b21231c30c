/**
 * The `MovieRecommender` object: its two bidirectional identifier maps, the
 * rating cache it writes during ingestion, the memoised totals, and the
 * translation of recommended item indices back to product identifiers.
 */
module Recommender {
  import opened Wrappers
  import opened Records
  import opened Interning
  import opened Ingestion

  /** How many recommendations are asked of the engine. */
  const HowMany: int := 3

  /**
   * A `HashBiMap<String, Integer>` as ingestion uses it: the identifier to
   * index map and its inverse view, updated together.
   */
  class IdMap {
    var ids: Index
    var names: map<nat, string>

    ghost predicate Valid()
      reads this
    {
      Dense(ids) && IsInverse(ids, names)
    }

    constructor ()
      ensures Valid() && ids == map[] && names == map[]
    {
      ids := map[];
      names := map[];
    }

    /**
     * Lookup-or-insert: an identifier not yet present is put with index
     * `size() + 1`; the index now held for the identifier is returned.
     */
    method Intern(id: string) returns (index: nat)
      requires Valid()
      modifies this
      ensures Valid()
      ensures ids == Interned(old(ids), id) && id in ids && index == ids[id]
      ensures id in old(ids) ==> names == old(names) && index == old(ids)[id]
      ensures id !in old(ids) ==> names == old(names)[|old(ids)| + 1 := id] && index == |old(ids)| + 1
      ensures 1 <= index <= |ids| && |old(ids)| <= |ids|
    {
      InternKeepsDense(ids, id);
      InternKeepsInverse(ids, names, id);
      if id !in ids {
        names := names[|ids| + 1 := id];
        ids := ids[id := |ids| + 1];
      }
      index := ids[id];
      assert index in ids.Values;
    }

    /**
     * `inverse().get(index)`: the identifier holding `index`, or `None` (Java's
     * `null`) when no identifier holds it.
     */
    function Name(index: int): (r: Option<string>)
      requires Valid()
      reads this
      ensures r.Some? <==> 1 <= index <= |ids|
      ensures r.Some? ==> r.value in ids && ids[r.value] == index
    {
      if index < 0 then None
      else
        InverseKeys(ids, names, index as nat);
        if (index as nat) in names then
          InverseTotal(ids, names, index);
          Some(names[index as nat])
        else None
    }

    /**
     * The loop of `getRecommendationsForUser`: each recommended item index
     * translated through the inverse view, in order, `None` where no
     * identifier holds the index.
     */
    method NamesOf(items: seq<int>) returns (result: seq<Option<string>>)
      requires Valid()
      ensures |result| == |items|
      ensures forall i | 0 <= i < |items| :: result[i] == Name(items[i])
    {
      result := [];
      var i := 0;
      while i < |items|
        invariant 0 <= i <= |items|
        invariant |result| == i
        invariant forall j | 0 <= j < i :: result[j] == Name(items[j])
      {
        result := result + [Name(items[i])];
        i := i + 1;
      }
    }
  }

  class MovieRecommender {
    var tReviews: int
    var tProducts: int
    var tUsers: int
    /** The text of the rating cache file. */
    var cache: string
    /** The ratings the cache holds, in the order they were written. */
    ghost var ratings: seq<Rating>
    const products: IdMap
    const users: IdMap
    /** The list the recommendation engine last returned; `None` while it is still `null`. */
    var recommendations: Option<seq<int>>

    ghost predicate Valid()
      reads this, products, users
    {
      && products != users
      && products.Valid() && users.Valid()
      && cache == Serialize(ratings)
      && ScoresLineFree(ratings)
      && RatingsWithin(ratings, |products.ids|, |users.ids|)
    }

    /** Each memoised total is either unset (0) or the current value. */
    ghost predicate MemoCurrent()
      reads this, products, users
    {
      && (tReviews == 0 || tReviews == |ratings|)
      && (tProducts == 0 || tProducts == |products.ids|)
      && (tUsers == 0 || tUsers == |users.ids|)
    }

    /** The ingestion state with the given current indices. */
    ghost function Snapshot(pID: nat, uID: nat): State
      reads this, products, users
    {
      State(products.ids, users.ids, pID, uID, ratings)
    }

    /** The fields as initialised, with the cache file emptied. */
    constructor Empty()
      ensures Valid() && MemoCurrent() && fresh(products) && fresh(users)
      ensures products.ids == map[] && users.ids == map[] && cache == [] && ratings == []
      ensures tReviews == 0 && tProducts == 0 && tUsers == 0 && recommendations == None
    {
      tReviews, tProducts, tUsers := 0, 0, 0;
      cache := [];
      ratings := [];
      products := new IdMap();
      users := new IdMap();
      recommendations := None;
    }

    /**
     * The constructor: empty the cache, then ingest the lines. A malformed
     * line makes ingestion throw, and then no object is obtained.
     */
    static method Open(lines: seq<string>) returns (r: Option<MovieRecommender>)
      requires forall i | 0 <= i < |lines| :: NoLineBreak(lines[i])
      ensures r.Some? <==> Completes(lines)
      ensures r.Some? ==> fresh(r.value) && r.value.Valid() && r.value.MemoCurrent()
      ensures r.Some? ==>
        var s := Run(Start(map[], map[], []), lines);
        r.value.products.ids == s.products && r.value.users.ids == s.users && r.value.ratings == s.ratings
    {
      var m := new MovieRecommender.Empty();
      var ok := m.ReadDataAndCreateHash(lines);
      r := if ok then Some(m) else None;
    }

    /** Appends one record to the cache: user, a comma, product, a comma, then `score`. */
    method CacheToFile(pID: int, uID: int, score: string)
      modifies this`cache
      ensures cache == old(cache) + RecordLine(pID, uID, score)
    {
      cache := cache + RecordLine(pID, uID, score);
    }

    /** `cacheToFile(pID, uID, score + "\n")`, with the rating the new record stands for. */
    method RecordScore(pID: nat, uID: nat, score: string)
      requires Valid() && NoLineBreak(score) && pID <= |products.ids| && uID <= |users.ids|
      modifies this`cache, this`ratings
      ensures Valid() && ratings == old(ratings) + [Rating(uID, pID, score)]
    {
      var r := Rating(uID, pID, score);
      CacheToFile(pID, uID, score + "\n");
      SerializeAppend(ratings, r);
      AppendRating(ratings, r, |products.ids|, |users.ids|);
      ratings := ratings + [r];
    }

    /** The product branch of the loop body: intern the identifier after the prefix and make it current. */
    method ProductLine(line: string, pID: nat, uID: nat) returns (pID': nat)
      requires Valid() && IsProductLine(line) && !Malformed(line)
      requires pID <= |products.ids| && uID <= |users.ids|
      modifies products
      ensures Valid() && pID' <= |products.ids|
      ensures Snapshot(pID', uID) == Step(old(Snapshot(pID, uID)), line)
    {
      ghost var before := Snapshot(pID, uID);
      var productID := line[ProductOffset..];
      pID' := products.Intern(productID);
      WidenRatings(ratings, |before.products|, |users.ids|, |products.ids|, |users.ids|);
      ProductLineSetsCurrent(before, line);
      PrefixesExclusive(line);
    }

    /** The user branch of the loop body: intern the identifier after the prefix and make it current. */
    method UserLine(line: string, pID: nat, uID: nat) returns (uID': nat)
      requires Valid() && IsUserLine(line) && !Malformed(line)
      requires pID <= |products.ids| && uID <= |users.ids|
      modifies users
      ensures Valid() && uID' <= |users.ids|
      ensures Snapshot(pID, uID') == Step(old(Snapshot(pID, uID)), line)
    {
      ghost var before := Snapshot(pID, uID);
      var userID := line[UserOffset..];
      uID' := users.Intern(userID);
      WidenRatings(ratings, |products.ids|, |before.users|, |products.ids|, |users.ids|);
      UserLineSetsCurrent(before, line);
      PrefixesExclusive(line);
    }

    /** The score branch of the loop body: write one record for the current user and product. */
    method ScoreLine(line: string, pID: nat, uID: nat)
      requires Valid() && IsScoreLine(line) && !Malformed(line) && NoLineBreak(line)
      requires pID <= |products.ids| && uID <= |users.ids|
      modifies this`cache, this`ratings
      ensures Valid()
      ensures Snapshot(pID, uID) == Step(old(Snapshot(pID, uID)), line)
    {
      ghost var before := Snapshot(pID, uID);
      var score := line[ScoreOffset..];
      RecordScore(pID, uID, score);
      ScoreLineEmits(before, line);
    }

    /**
     * The body of the ingestion loop for one line, with the current product
     * and user indices passed in and returned. A line too short for the field
     * its prefix announces fails (`substring` throws) and changes nothing.
     */
    method ProcessLine(line: string, pID: nat, uID: nat) returns (ok: bool, pID': nat, uID': nat)
      requires Valid() && NoLineBreak(line)
      requires pID <= |products.ids| && uID <= |users.ids|
      modifies this`cache, this`ratings, products, users
      ensures Valid()
      ensures pID' <= |products.ids| && uID' <= |users.ids|
      ensures tReviews == old(tReviews) && tProducts == old(tProducts) && tUsers == old(tUsers)
      ensures recommendations == old(recommendations)
      ensures ok == !Malformed(line)
      ensures ok ==> Snapshot(pID', uID') == Step(old(Snapshot(pID, uID)), line)
      ensures !ok ==> Snapshot(pID', uID') == old(Snapshot(pID, uID))
    {
      PrefixesExclusive(line);
      ghost var before := Snapshot(pID, uID);
      ok, pID', uID' := true, pID, uID;
      if |line| == 0 {
        IgnoredLine(before, line);
        return;
      }
      if IsProductLine(line) {
        if |line| < ProductOffset {
          ok := false;
          return;
        }
        pID' := ProductLine(line, pID', uID');
      }
      if IsUserLine(line) {
        if |line| < UserOffset {
          ok := false;
          return;
        }
        uID' := UserLine(line, pID', uID');
      }
      if IsScoreLine(line) {
        if |line| < ScoreOffset {
          ok := false;
          return;
        }
        ScoreLine(line, pID', uID');
      }
      if !IsProductLine(line) && !IsUserLine(line) && !IsScoreLine(line) {
        IgnoredLine(before, line);
      }
    }

    /**
     * Ingests the lines in order, interning product and user identifiers and
     * writing one rating per score line, as the state machine `Run`
     * describes. It stops at the first malformed line, keeping what was done
     * before it, and then reports failure.
     */
    method ReadDataAndCreateHash(lines: seq<string>) returns (ok: bool)
      requires Valid()
      requires forall i | 0 <= i < |lines| :: NoLineBreak(lines[i])
      modifies this`cache, this`ratings, products, users
      ensures Valid()
      ensures ok == Completes(lines)
      ensures var s := Run(Start(old(products.ids), old(users.ids), old(ratings)), lines);
        products.ids == s.products && users.ids == s.users && ratings == s.ratings
      ensures tReviews == old(tReviews) && tProducts == old(tProducts) && tUsers == old(tUsers)
      ensures recommendations == old(recommendations)
    {
      ghost var start := Start(products.ids, users.ids, ratings);
      var pID: nat, uID: nat := 0, 0;
      var i := 0;
      while i < |lines|
        invariant 0 <= i <= |lines|
        invariant Valid()
        invariant pID <= |products.ids| && uID <= |users.ids|
        invariant forall j | 0 <= j < i :: !Malformed(lines[j])
        invariant Run(start, lines) == Run(Snapshot(pID, uID), lines[i..])
        invariant tReviews == old(tReviews) && tProducts == old(tProducts) && tUsers == old(tUsers)
        invariant recommendations == old(recommendations)
      {
        RunFrom(Snapshot(pID, uID), lines, i);
        var lineOk;
        lineOk, pID, uID := ProcessLine(lines[i], pID, uID);
        if !lineOk {
          return false;
        }
        i := i + 1;
      }
      ok := true;
    }

    /** Counts the lines of the cache file. */
    method CountReviews() returns (counter: int)
      ensures counter == |ReadLines(cache)|
      ensures Valid() ==> counter == |ratings|
    {
      var lt := ReadLines(cache);
      counter := 0;
      var i := 0;
      while i < |lt|
        invariant 0 <= i <= |lt|
        invariant counter == i
      {
        counter := counter + 1;
        i := i + 1;
      }
      if Valid() {
        ReadBackSerialized(ratings);
      }
    }

    /** The number of ratings, computed from the cache while the memo is 0. */
    method GetTotalReviews() returns (r: int)
      requires Valid()
      modifies this`tReviews
      ensures Valid() && r == tReviews
      ensures old(tReviews) == 0 ==> r == |ratings|
      ensures old(tReviews) != 0 ==> r == old(tReviews)
      ensures old(MemoCurrent()) ==> r == |ratings| && MemoCurrent()
    {
      ghost var valid := Valid();
      if tReviews == 0 {
        var count := CountReviews();
        tReviews := count;
        assert Valid() == valid;
      }
      r := tReviews;
    }

    /** The number of distinct product identifiers, memoised once it is nonzero. */
    method GetTotalProducts() returns (r: int)
      requires Valid()
      modifies this`tProducts
      ensures Valid() && r == tProducts
      ensures old(tProducts) == 0 ==> r == |products.ids|
      ensures old(tProducts) != 0 ==> r == old(tProducts)
      ensures old(MemoCurrent()) ==> r == |products.ids| && MemoCurrent()
    {
      if tProducts == 0 {
        tProducts := |products.ids|;
      }
      r := tProducts;
    }

    /** The number of distinct user identifiers, memoised once it is nonzero. */
    method GetTotalUsers() returns (r: int)
      requires Valid()
      modifies this`tUsers
      ensures Valid() && r == tUsers
      ensures old(tUsers) == 0 ==> r == |users.ids|
      ensures old(tUsers) != 0 ==> r == old(tUsers)
      ensures old(MemoCurrent()) ==> r == |users.ids| && MemoCurrent()
    {
      if tUsers == 0 {
        tUsers := |users.ids|;
      }
      r := tUsers;
    }

    /**
     * Asks the engine (`recommend`, `None` standing for a thrown exception)
     * for three items for the user and translates each item index back to its
     * product identifier. When the engine throws, the list it returned last
     * time is used again.
     */
    method GetRecommendationsForUser(userId: string, recommend: (int, int) -> Option<seq<int>>)
      returns (result: seq<Option<string>>)
      requires Valid() && userId in users.ids
      requires recommend(users.ids[userId], HowMany).Some? || recommendations.Some?
      modifies this`recommendations
      ensures Valid()
      ensures recommendations ==
        if recommend(users.ids[userId], HowMany).Some? then recommend(users.ids[userId], HowMany)
        else old(recommendations)
      ensures recommendations.Some? && |result| == |recommendations.value|
      ensures forall i | 0 <= i < |result| :: result[i] == products.Name(recommendations.value[i])
    {
      var found := recommend(users.ids[userId], HowMany);
      if found.Some? {
        recommendations := found;
      }
      result := products.NamesOf(recommendations.value);
    }
  }
}
