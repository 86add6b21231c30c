/**
 * The review-ingestion state machine of `readDataAndCreateHash`, as a pure
 * specification: a state of two interning maps, the current product and
 * user indices and the ratings written so far, advanced one input line at a
 * time.
 */
module Ingestion {
  import opened Records
  import opened Interning

  const ProductPrefix: string := "product/productId"
  const UserPrefix: string := "review/userId"
  const ScorePrefix: string := "review/score"

  /** Characters dropped before the field: the prefix and the `": "` after it. */
  const ProductOffset: nat := 19
  const UserOffset: nat := 15
  const ScoreOffset: nat := 14

  predicate StartsWith(line: string, prefix: string) {
    |prefix| <= |line| && line[..|prefix|] == prefix
  }

  predicate IsProductLine(line: string) {
    StartsWith(line, ProductPrefix)
  }

  predicate IsUserLine(line: string) {
    StartsWith(line, UserPrefix)
  }

  predicate IsScoreLine(line: string) {
    StartsWith(line, ScorePrefix)
  }

  /** A line that matches a prefix but is too short for its field offset: `substring` throws. */
  predicate Malformed(line: string)
    ensures Malformed(line) ==> |ScorePrefix| <= |line| < ProductOffset
  {
    || (IsProductLine(line) && |line| < ProductOffset)
    || (IsUserLine(line) && |line| < UserOffset)
    || (IsScoreLine(line) && |line| < ScoreOffset)
  }

  /** The three prefixes exclude one another, so at most one branch acts on a line. */
  lemma PrefixesExclusive(line: string)
    ensures !(IsProductLine(line) && IsUserLine(line))
    ensures !(IsProductLine(line) && IsScoreLine(line))
    ensures !(IsUserLine(line) && IsScoreLine(line))
  {
    if IsProductLine(line) {
      assert line[0] == ProductPrefix[0];
    }
    if IsUserLine(line) {
      assert line[7] == UserPrefix[7];
    }
    if IsScoreLine(line) {
      assert line[7] == ScorePrefix[7];
    }
  }

  /** Every rating's score is the text of one line. */
  ghost predicate ScoresLineFree(rs: seq<Rating>) {
    forall i | 0 <= i < |rs| :: NoLineBreak(rs[i].score)
  }

  /** Every rating's product index is at most `np` and its user index at most `nu`. */
  ghost predicate RatingsWithin(rs: seq<Rating>, np: nat, nu: nat) {
    forall i | 0 <= i < |rs| :: rs[i].product <= np && rs[i].user <= nu
  }

  lemma AppendRating(rs: seq<Rating>, r: Rating, np: nat, nu: nat)
    requires RatingsWithin(rs, np, nu) && r.product <= np && r.user <= nu
    requires ScoresLineFree(rs) && NoLineBreak(r.score)
    ensures RatingsWithin(rs + [r], np, nu) && ScoresLineFree(rs + [r])
  {
  }

  lemma WidenRatings(rs: seq<Rating>, np: nat, nu: nat, np': nat, nu': nat)
    requires RatingsWithin(rs, np, nu) && np <= np' && nu <= nu'
    ensures RatingsWithin(rs, np', nu')
  {
  }

  datatype State = State(products: Index, users: Index, pID: nat, uID: nat, ratings: seq<Rating>)

  /** Both maps dense, the current indices 0 or in use, every rating's indices 0 or in use. */
  ghost predicate Consistent(s: State) {
    && Dense(s.products) && Dense(s.users)
    && s.pID <= |s.products| && s.uID <= |s.users|
    && RatingsWithin(s.ratings, |s.products|, |s.users|)
  }

  /** The state at the start of ingestion into the given maps and ratings: both current indices 0. */
  function Start(products: Index, users: Index, ratings: seq<Rating>): State {
    State(products, users, 0, 0, ratings)
  }

  /** One line: the three prefix tests in turn, as the loop body does them. */
  function Step(s: State, line: string): (r: State)
    requires !Malformed(line)
    ensures s.products.Keys <= r.products.Keys && s.users.Keys <= r.users.Keys
  {
    if line == [] then s
    else
      var s1 :=
        if IsProductLine(line) then
          var m := Interned(s.products, line[ProductOffset..]);
          s.(products := m, pID := m[line[ProductOffset..]])
        else s;
      var s2 :=
        if IsUserLine(line) then
          var m := Interned(s1.users, line[UserOffset..]);
          s1.(users := m, uID := m[line[UserOffset..]])
        else s1;
      if IsScoreLine(line) then
        s2.(ratings := s2.ratings + [Rating(s2.uID, s2.pID, line[ScoreOffset..])])
      else s2
  }

  /**
   * The lines in turn, stopping at the first malformed line, where `substring`
   * throws. Identifiers are only ever added to the maps.
   */
  function Run(s: State, lines: seq<string>): (r: State)
    ensures s.products.Keys <= r.products.Keys && s.users.Keys <= r.users.Keys
    decreases |lines|
  {
    if lines == [] || Malformed(lines[0]) then s else Run(Step(s, lines[0]), lines[1..])
  }

  /** One more line of a run: it stops at a malformed line and otherwise takes one step. */
  lemma RunFrom(s: State, lines: seq<string>, i: nat)
    requires i < |lines|
    ensures Malformed(lines[i]) ==> Run(s, lines[i..]) == s
    ensures !Malformed(lines[i]) ==> Run(s, lines[i..]) == Run(Step(s, lines[i]), lines[i + 1..])
  {
    assert lines[i..][0] == lines[i] && lines[i..][1..] == lines[i + 1..];
  }

  /** True when ingestion reaches the end of the input without an exception. */
  predicate Completes(lines: seq<string>) {
    forall i | 0 <= i < |lines| :: !Malformed(lines[i])
  }

  /** The lines processed before the first malformed line (all of them if there is none). */
  function Accepted(lines: seq<string>): (r: seq<string>)
    ensures r <= lines && Completes(r)
    ensures |r| < |lines| ==> Malformed(lines[|r|])
    ensures r == lines <==> Completes(lines)
    decreases |lines|
  {
    if lines == [] || Malformed(lines[0]) then [] else [lines[0]] + Accepted(lines[1..])
  }

  /** The identifiers of the product lines, in order. */
  function ProductIds(lines: seq<string>): seq<string>
    requires Completes(lines)
    decreases |lines|
  {
    if lines == [] then []
    else (if IsProductLine(lines[0]) then [lines[0][ProductOffset..]] else []) + ProductIds(lines[1..])
  }

  /** The identifiers of the user lines, in order. */
  function UserIds(lines: seq<string>): seq<string>
    requires Completes(lines)
    decreases |lines|
  {
    if lines == [] then []
    else (if IsUserLine(lines[0]) then [lines[0][UserOffset..]] else []) + UserIds(lines[1..])
  }

  /** The score texts of the score lines, in order. */
  function ScoreTexts(lines: seq<string>): seq<string>
    requires Completes(lines)
    decreases |lines|
  {
    if lines == [] then []
    else (if IsScoreLine(lines[0]) then [lines[0][ScoreOffset..]] else []) + ScoreTexts(lines[1..])
  }

  /** The score texts of the ratings, in order. */
  function Scores(rs: seq<Rating>): (r: seq<string>)
    ensures |r| == |rs|
    decreases |rs|
  {
    if rs == [] then [] else Scores(rs[..|rs| - 1]) + [rs[|rs| - 1].score]
  }

  lemma ScoresSnoc(rs: seq<Rating>, r: Rating)
    ensures Scores(rs + [r]) == Scores(rs) + [r.score]
  {
    assert (rs + [r])[..|rs|] == rs;
  }

  /** A line that is empty or matches none of the prefixes changes nothing. */
  lemma IgnoredLine(s: State, line: string)
    requires !IsProductLine(line) && !IsUserLine(line) && !IsScoreLine(line)
    ensures !Malformed(line) && Step(s, line) == s
  {
  }

  /** One step keeps the maps dense and every index it records 0 or in use. */
  lemma StepConsistent(s: State, line: string)
    requires Consistent(s) && !Malformed(line)
    ensures Consistent(Step(s, line))
  {
    if IsProductLine(line) {
      ProductStepConsistent(s, line);
    } else if IsUserLine(line) {
      UserStepConsistent(s, line);
    } else if IsScoreLine(line) {
      ScoreLineEmits(s, line);
    } else {
      IgnoredLine(s, line);
    }
  }

  lemma ProductStepConsistent(s: State, line: string)
    requires Consistent(s) && IsProductLine(line) && !Malformed(line)
    ensures Consistent(Step(s, line))
  {
    var id := line[ProductOffset..];
    var m := Interned(s.products, id);
    ProductStepIs(s, line);
    InternedIndexWithin(s.products, id);
    WidenRatings(s.ratings, |s.products|, |s.users|, |m|, |s.users|);
  }

  lemma UserStepConsistent(s: State, line: string)
    requires Consistent(s) && IsUserLine(line) && !Malformed(line)
    ensures Consistent(Step(s, line))
  {
    var id := line[UserOffset..];
    var m := Interned(s.users, id);
    UserStepIs(s, line);
    InternedIndexWithin(s.users, id);
    WidenRatings(s.ratings, |s.products|, |s.users|, |s.products|, |m|);
  }

  /** Interning into a dense map gives a dense map, no smaller, in which the identifier's index is in use. */
  lemma InternedIndexWithin(m: Index, id: string)
    requires Dense(m)
    ensures Dense(Interned(m, id)) && |m| <= |Interned(m, id)|
    ensures id in Interned(m, id) && 1 <= Interned(m, id)[id] <= |Interned(m, id)|
  {
    InternKeepsDense(m, id);
    assert Interned(m, id)[id] in Interned(m, id).Values;
  }

  /** A product line's step, in full: only the product map and the current product index change. */
  lemma ProductStepIs(s: State, line: string)
    requires IsProductLine(line) && !Malformed(line)
    ensures var m := Interned(s.products, line[ProductOffset..]);
      Step(s, line) == s.(products := m, pID := m[line[ProductOffset..]])
  {
    PrefixesExclusive(line);
  }

  /** A user line's step, in full: only the user map and the current user index change. */
  lemma UserStepIs(s: State, line: string)
    requires IsUserLine(line) && !Malformed(line)
    ensures var m := Interned(s.users, line[UserOffset..]);
      Step(s, line) == s.(users := m, uID := m[line[UserOffset..]])
  {
    PrefixesExclusive(line);
  }

  lemma {:induction false} RunConsistent(s: State, lines: seq<string>)
    requires Consistent(s)
    ensures Consistent(Run(s, lines))
    decreases |lines|
  {
    if lines != [] && !Malformed(lines[0]) {
      StepConsistent(s, lines[0]);
      RunConsistent(Step(s, lines[0]), lines[1..]);
    }
  }

  /**
   * The product map after ingestion is the old one with every product
   * identifier interned in input order; the user map likewise. User lines
   * never touch the product map and product lines never touch the user map.
   */
  lemma {:induction false} RunInterns(s: State, lines: seq<string>)
    ensures Run(s, lines).products == InternAll(s.products, ProductIds(Accepted(lines)))
    ensures Run(s, lines).users == InternAll(s.users, UserIds(Accepted(lines)))
    decreases |lines|
  {
    if lines != [] && !Malformed(lines[0]) {
      var l := lines[0];
      var s' := Step(s, l);
      RunInterns(s', lines[1..]);
      var acc := Accepted(lines);
      assert acc[0] == l && acc[1..] == Accepted(lines[1..]);
      var rest := acc[1..];
      if IsProductLine(l) {
        ProductLineSetsCurrent(s, l);
        assert ProductIds(acc) == [l[ProductOffset..]] + ProductIds(rest);
        assert ([l[ProductOffset..]] + ProductIds(rest))[1..] == ProductIds(rest);
        assert UserIds(acc) == UserIds(rest) by {
          PrefixesExclusive(l);
        }
      } else if IsUserLine(l) {
        UserLineSetsCurrent(s, l);
        assert UserIds(acc) == [l[UserOffset..]] + UserIds(rest);
        assert ([l[UserOffset..]] + UserIds(rest))[1..] == UserIds(rest);
        assert ProductIds(acc) == ProductIds(rest);
      } else {
        assert ProductIds(acc) == ProductIds(rest);
        assert UserIds(acc) == UserIds(rest);
        if IsScoreLine(l) {
          ScoreLineEmits(s, l);
        } else {
          IgnoredLine(s, l);
        }
      }
    }
  }

  /** One step appends the line's rating if it is a score line, and nothing otherwise. */
  lemma StepEmits(s: State, l: string)
    requires !Malformed(l)
    ensures IsScoreLine(l) ==> Step(s, l).ratings == s.ratings + [Rating(s.uID, s.pID, l[ScoreOffset..])]
    ensures !IsScoreLine(l) ==> Step(s, l).ratings == s.ratings
  {
    PrefixesExclusive(l);
    if IsScoreLine(l) {
      ScoreLineEmits(s, l);
    } else if IsProductLine(l) {
      ProductLineSetsCurrent(s, l);
    } else if IsUserLine(l) {
      UserLineSetsCurrent(s, l);
    } else {
      IgnoredLine(s, l);
    }
  }

  /** The ratings are append-only: a run keeps the ratings it started with as a prefix. */
  lemma {:induction false} RunAppendOnly(s: State, lines: seq<string>)
    ensures |Run(s, lines).ratings| >= |s.ratings|
    ensures Run(s, lines).ratings[..|s.ratings|] == s.ratings
    decreases |lines|
  {
    if lines != [] && !Malformed(lines[0]) {
      var s' := Step(s, lines[0]);
      StepEmits(s, lines[0]);
      RunAppendOnly(s', lines[1..]);
      var r := Run(s', lines[1..]).ratings;
      assert r[..|s.ratings|] == r[..|s'.ratings|][..|s.ratings|];
    }
  }

  /**
   * Ingestion appends exactly one rating per accepted score line, carrying
   * that line's score text, in input order.
   */
  lemma {:induction false} RunEmitsOnePerScoreLine(s: State, lines: seq<string>)
    ensures Scores(Run(s, lines).ratings) == Scores(s.ratings) + ScoreTexts(Accepted(lines))
    ensures |Run(s, lines).ratings| == |s.ratings| + |ScoreTexts(Accepted(lines))|
    decreases |lines|
  {
    if lines != [] && !Malformed(lines[0]) {
      var l := lines[0];
      var s' := Step(s, l);
      var e := LineScore(l);
      var t := ScoreTexts(Accepted(lines[1..]));
      RunCons(s, lines);
      StepScores(s, l);
      AcceptedScoreTexts(lines);
      RunEmitsOnePerScoreLine(s', lines[1..]);
      calc {
        Scores(Run(s, lines).ratings);
        Scores(Run(s', lines[1..]).ratings);
        Scores(s'.ratings) + t;
        (Scores(s.ratings) + e) + t;
        Scores(s.ratings) + (e + t);
        Scores(s.ratings) + ScoreTexts(Accepted(lines));
      }
      assert |Run(s, lines).ratings| == |Scores(Run(s, lines).ratings)|;
    }
  }

  /** The score text a line contributes: one for a score line, none otherwise. */
  function LineScore(l: string): seq<string>
    requires !Malformed(l)
  {
    if IsScoreLine(l) then [l[ScoreOffset..]] else []
  }

  lemma StepScores(s: State, l: string)
    requires !Malformed(l)
    ensures Scores(Step(s, l).ratings) == Scores(s.ratings) + LineScore(l)
  {
    StepEmits(s, l);
    if IsScoreLine(l) {
      ScoresSnoc(s.ratings, Rating(s.uID, s.pID, l[ScoreOffset..]));
    }
  }

  lemma AcceptedScoreTexts(lines: seq<string>)
    requires lines != [] && !Malformed(lines[0])
    ensures ScoreTexts(Accepted(lines)) == LineScore(lines[0]) + ScoreTexts(Accepted(lines[1..]))
  {
    AcceptedCons(lines);
    ScoreTextsCons(lines[0], Accepted(lines[1..]));
  }

  lemma RunCons(s: State, lines: seq<string>)
    requires lines != [] && !Malformed(lines[0])
    ensures Run(s, lines) == Run(Step(s, lines[0]), lines[1..])
  {
  }

  lemma AcceptedCons(lines: seq<string>)
    requires lines != [] && !Malformed(lines[0])
    ensures Accepted(lines) == [lines[0]] + Accepted(lines[1..])
  {
  }

  lemma ScoreTextsCons(l: string, rest: seq<string>)
    requires !Malformed(l) && Completes(rest)
    ensures Completes([l] + rest)
    ensures ScoreTexts([l] + rest) == (if IsScoreLine(l) then [l[ScoreOffset..]] else []) + ScoreTexts(rest)
  {
    assert ([l] + rest)[1..] == rest;
  }

  /**
   * While no product line is read, the current product index stays what it
   * was, and every rating written meanwhile carries it; at the start of
   * ingestion that is 0.
   */
  lemma {:induction false} RatingsCarryCurrentProduct(s: State, lines: seq<string>)
    ensures (forall i | 0 <= i < |lines| :: !IsProductLine(lines[i])) ==>
      Run(s, lines).pID == s.pID &&
      forall j | |s.ratings| <= j < |Run(s, lines).ratings| :: Run(s, lines).ratings[j].product == s.pID
    decreases |lines|
  {
    if lines != [] && !Malformed(lines[0]) && forall i | 0 <= i < |lines| :: !IsProductLine(lines[i]) {
      var s' := Step(s, lines[0]);
      RunCons(s, lines);
      StepKeepsProduct(s, lines[0]);
      assert forall i | 0 <= i < |lines[1..]| :: lines[1..][i] == lines[i + 1];
      RatingsCarryCurrentProduct(s', lines[1..]);
      RunAppendOnly(s', lines[1..]);
      var r := Run(s', lines[1..]).ratings;
      forall j | |s.ratings| <= j < |r| ensures r[j].product == s.pID {
        if j < |s'.ratings| {
          assert r[j] == r[..|s'.ratings|][j];
        }
      }
    }
  }

  /** The same for users: without a user line the current user index and every new rating keep it. */
  lemma {:induction false} RatingsCarryCurrentUser(s: State, lines: seq<string>)
    ensures (forall i | 0 <= i < |lines| :: !IsUserLine(lines[i])) ==>
      Run(s, lines).uID == s.uID &&
      forall j | |s.ratings| <= j < |Run(s, lines).ratings| :: Run(s, lines).ratings[j].user == s.uID
    decreases |lines|
  {
    if lines != [] && !Malformed(lines[0]) && forall i | 0 <= i < |lines| :: !IsUserLine(lines[i]) {
      var s' := Step(s, lines[0]);
      RunCons(s, lines);
      StepKeepsUser(s, lines[0]);
      assert forall i | 0 <= i < |lines[1..]| :: lines[1..][i] == lines[i + 1];
      RatingsCarryCurrentUser(s', lines[1..]);
      RunAppendOnly(s', lines[1..]);
      var r := Run(s', lines[1..]).ratings;
      forall j | |s.ratings| <= j < |r| ensures r[j].user == s.uID {
        if j < |s'.ratings| {
          assert r[j] == r[..|s'.ratings|][j];
        }
      }
    }
  }

  lemma StepKeepsProduct(s: State, l: string)
    requires !Malformed(l) && !IsProductLine(l)
    ensures Step(s, l).pID == s.pID
    ensures forall j | |s.ratings| <= j < |Step(s, l).ratings| :: Step(s, l).ratings[j].product == s.pID
  {
    PrefixesExclusive(l);
    StepEmits(s, l);
    if IsUserLine(l) {
      UserLineSetsCurrent(s, l);
    } else if IsScoreLine(l) {
      ScoreLineEmits(s, l);
    } else {
      IgnoredLine(s, l);
    }
  }

  lemma StepKeepsUser(s: State, l: string)
    requires !Malformed(l) && !IsUserLine(l)
    ensures Step(s, l).uID == s.uID
    ensures forall j | |s.ratings| <= j < |Step(s, l).ratings| :: Step(s, l).ratings[j].user == s.uID
  {
    PrefixesExclusive(l);
    StepEmits(s, l);
    if IsProductLine(l) {
      ProductLineSetsCurrent(s, l);
    } else if IsScoreLine(l) {
      ScoreLineEmits(s, l);
    } else {
      IgnoredLine(s, l);
    }
  }

  /** After a product line, the current product index is the one its identifier was interned to. */
  lemma ProductLineSetsCurrent(s: State, line: string)
    requires IsProductLine(line) && !Malformed(line)
    ensures Step(s, line).pID == Step(s, line).products[line[ProductOffset..]]
    ensures Step(s, line).products == Interned(s.products, line[ProductOffset..])
    ensures Step(s, line).ratings == s.ratings && Step(s, line).uID == s.uID
  {
    PrefixesExclusive(line);
  }

  /** After a user line, the current user index is the one its identifier was interned to. */
  lemma UserLineSetsCurrent(s: State, line: string)
    requires IsUserLine(line) && !Malformed(line)
    ensures Step(s, line).uID == Step(s, line).users[line[UserOffset..]]
    ensures Step(s, line).users == Interned(s.users, line[UserOffset..])
    ensures Step(s, line).ratings == s.ratings && Step(s, line).pID == s.pID
  {
    PrefixesExclusive(line);
  }

  /** A score line appends one rating from the current indices and changes nothing else. */
  lemma ScoreLineEmits(s: State, line: string)
    requires IsScoreLine(line) && !Malformed(line)
    ensures Step(s, line) == s.(ratings := s.ratings + [Rating(s.uID, s.pID, line[ScoreOffset..])])
  {
    PrefixesExclusive(line);
  }

  /**
   * From empty maps, the product identifiers are numbered 1, 2, ... in the
   * order they first appear in the input.
   */
  lemma ProductsNumberedFirstSeen(lines: seq<string>)
    ensures var m := Run(Start(map[], map[], []), lines).products;
      var ps := FirstSeen(ProductIds(Accepted(lines)));
      |m| == |ps| && forall i | 0 <= i < |ps| :: ps[i] in m && m[ps[i]] == i + 1
  {
    var ids := ProductIds(Accepted(lines));
    RunInterns(Start(map[], map[], []), lines);
    FirstSeenOrder(ids);
  }

  /**
   * From empty maps, the user identifiers are numbered 1, 2, ... in the
   * order they first appear in the input.
   */
  lemma UsersNumberedFirstSeen(lines: seq<string>)
    ensures var m := Run(Start(map[], map[], []), lines).users;
      var us := FirstSeen(UserIds(Accepted(lines)));
      |m| == |us| && forall i | 0 <= i < |us| :: us[i] in m && m[us[i]] == i + 1
  {
    var ids := UserIds(Accepted(lines));
    RunInterns(Start(map[], map[], []), lines);
    FirstSeenOrder(ids);
  }
}
