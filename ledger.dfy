/** The trust score read-modify-write shared by the rating endpoint and the
    client's end-of-chat rating: `(trust_score || 100) + rating`. */
module Ledger {
  import opened Schema
  import opened Store

  /** `trust_score || 100`: a null or zero score reads as 100. */
  function ScoreBase(score: Option<int>): (b: int)
    ensures b != 0
    ensures score.Some? && score.value != 0 ==> b == score.value
    ensures score.None? || score.value == 0 ==> b == 100
  {
    if score.None? || score.value == 0 then 100 else score.value
  }

  /** The score written back: `(trust_score || 100) + rating`. */
  function Rated(score: Option<int>, rating: int): (r: int)
    ensures score.Some? && score.value != 0 ==> r == score.value + rating
    ensures score.None? || score.value == 0 ==> r == 100 + rating
  {
    ScoreBase(score) + rating
  }

  /** Read the user's score and write it back with the rating added; an
      unknown user is left alone. */
  function ApplyRating(db: Db, userId: string, rating: int): (db': Db)
    ensures userId !in db.users ==> db' == db
    ensures db'.users.Keys == db.users.Keys
    ensures userId in db.users ==>
      db'.users[userId] == db.users[userId].(trustScore := Some(Rated(db.users[userId].trustScore, rating)))
  {
    if userId in db.users then db.WithTrustScore(userId, Rated(db.users[userId].trustScore, rating)) else db
  }

  /** A rating changes only the rated user's score. */
  lemma RatingTouchesOnlyThatUser(db: Db, userId: string, rating: int)
    ensures var db' := ApplyRating(db, userId, rating);
      && db'.requests == db.requests
      && db'.conversations == db.conversations
      && db'.messages == db.messages
      && db'.users.Keys == db.users.Keys
      && (forall v :: v in db.users && v != userId ==> db'.users[v] == db.users[v])
      && (userId in db.users ==>
            db'.users[userId] == db.users[userId].(trustScore := Some(ScoreBase(db.users[userId].trustScore) + rating)))
  {
  }

  /** Two ratings in a row add up, unless the first lands the score on 0,
      which the second then reads as 100. */
  lemma RatingsAdd(score: Option<int>, a: int, b: int)
    ensures Rated(Some(Rated(score, a)), b) ==
      if ScoreBase(score) + a == 0 then 100 + b else ScoreBase(score) + a + b
  {
  }

  /** +1 followed by -1 restores the stored score exactly when that score is
      set and is neither 0 (read as 100) nor -1 (passes through 0). */
  lemma {:induction false} UpThenDownRestores(score: Option<int>)
    ensures Some(Rated(Some(Rated(score, 1)), -1)) == score <==>
      (score.Some? && score.value != 0 && score.value != -1)
  {
    if score.Some? && score.value == -1 {
      assert Rated(score, 1) == 0;
      assert Rated(Some(0), -1) == 99;
    }
  }

  /** The same on the store: +1 then -1 on a user leaves the tables as they
      were exactly when the user is unknown or their score is neither null,
      0 nor -1. */
  lemma {:induction false} UpThenDownOnStore(db: Db, userId: string)
    ensures ApplyRating(ApplyRating(db, userId, 1), userId, -1) == db <==>
      (userId !in db.users ||
        (db.users[userId].trustScore.Some? && db.users[userId].trustScore.value !in {0, -1}))
  {
    if userId in db.users {
      var u := db.users[userId];
      var db2 := ApplyRating(ApplyRating(db, userId, 1), userId, -1);
      UpThenDownRestores(u.trustScore);
      assert db2.users[userId] == u.(trustScore := Some(Rated(Some(Rated(u.trustScore, 1)), -1)));
      if u.trustScore.Some? && u.trustScore.value !in {0, -1} {
        assert db2.users == db.users;
      } else {
        assert db2.users[userId] != u;
      }
    }
  }
}
