/**
 * Properties of the artist controller's handlers that relate several
 * requests or that hold of every reachable store: the store invariant is
 * kept by every handler, a registered artist can log in with the same
 * credentials, and only a listing's owner ever changes or removes it.
 */
module StoreProperties {
  import opened Wrappers
  import opened RouteValidators
  import opened Sequences
  import opened ListingStore

  /** With unique ids, `findById` finds the one artist holding the id. */
  lemma FindArtistAt(artists: seq<Artist>, k: nat)
    requires k < |artists|
    requires forall i, j | 0 <= i < j < |artists| :: artists[i].id != artists[j].id
    ensures FindArtist(artists, artists[k].id) == Some(k)
  {
    FirstIndexAt(artists, (a: Artist) => a.id == artists[k].id, k);
  }

  /** Lookups by id survive a change of some artist records that keeps every id. */
  lemma FindArtistSameIds(artists: seq<Artist>, artists': seq<Artist>, id: Id)
    requires |artists| == |artists'|
    requires forall k | 0 <= k < |artists| :: artists'[k].id == artists[k].id
    ensures FindArtist(artists', id) == FindArtist(artists, id)
  {
    var p := (a: Artist) => a.id == id;
    var r := FindArtist(artists, id);
    if r.Some? {
      FirstIndexAt(artists', p, r.value);
    } else {
      assert forall k | 0 <= k < |artists'| :: !p(artists'[k]) by {
        forall k | 0 <= k < |artists'| ensures !p(artists'[k]) {
          assert !p(artists[k]);
        }
      }
      assert FirstIndex(artists', p, 0).None?;
    }
  }

  /**
   * Appending an artist with the next id and an e-mail no stored artist has
   * keeps the store invariant.
   */
  lemma AppendArtistKeepsConsistent(db: Db, a: Artist)
    requires Consistent(db)
    requires a.id == db.nextId
    requires forall i | 0 <= i < |db.artists| :: db.artists[i].email != a.email
    ensures Consistent(Db(db.artists + [a], db.listings, db.nextId + 1))
  {
    var db' := Db(db.artists + [a], db.listings, db.nextId + 1);
    forall id | id in db'.listings ensures Recorded(db', id) {
      assert Recorded(db, id);
      FirstIndexAppend(db.artists, a, (x: Artist) => x.id == db.listings[id].owner);
    }
  }

  /** Registration keeps the store invariant; in particular e-mails stay unique. */
  lemma RegisterKeepsConsistent(db: Db, errors: seq<ValidationError>, b: Body, salt: nat)
    requires Consistent(db)
    ensures Consistent(Register(db, errors, b, salt).db)
  {
    var s := Register(db, errors, b, salt);
    if s.reply.Is(201) {
      var a := NewArtist(db.nextId, b, salt);
      assert s.db == Db(db.artists + [a], db.listings, db.nextId + 1);
      assert FindByEmail(db.artists, a.email).None?;
      forall i | 0 <= i < |db.artists| ensures db.artists[i].email != a.email {
        assert !((x: Artist) => x.email == a.email)(db.artists[i]);
      }
      AppendArtistKeepsConsistent(db, a);
    }
  }

  /**
   * Storing a listing under the next id, owned by artist `i`, and recording
   * the id in that artist's `arts` keeps the store invariant.
   */
  lemma AddListingKeepsConsistent(db: Db, i: nat, l: Listing)
    requires Consistent(db)
    requires i < |db.artists| && l.owner == db.artists[i].id
    ensures Consistent(Db(db.artists[i := WithArt(db.artists[i], db.nextId)],
                          db.listings[db.nextId := l], db.nextId + 1))
  {
    var id := db.nextId;
    var db' := Db(db.artists[i := WithArt(db.artists[i], id)], db.listings[id := l], id + 1);
    forall k | 0 <= k < |db.artists|
      ensures db'.artists[k].id == db.artists[k].id && db'.artists[k].email == db.artists[k].email
    {
    }
    forall x | x in db'.listings ensures Recorded(db', x) {
      var o := db'.listings[x].owner;
      FindArtistSameIds(db.artists, db'.artists, o);
      if x == id {
        FindArtistAt(db.artists, i);
      } else {
        assert Recorded(db, x);
      }
    }
  }

  /**
   * Listing creation keeps the store invariant, given that the
   * authentication middleware only attaches stored artists.
   */
  lemma CreateKeepsConsistent(db: Db, requester: Option<Id>, errors: seq<ValidationError>, b: Body)
    requires Consistent(db)
    requires requester.Some? ==> IsArtist(db, requester.value)
    ensures Consistent(Create(db, requester, errors, b).db)
  {
    var s := Create(db, requester, errors, b);
    if s.reply.Is(200) {
      var i := FindArtist(db.artists, requester.value).value;
      AddListingKeepsConsistent(db, i, s.reply.payload.listing);
    }
  }

  /**
   * The store invariant survives any change to the listings alone that
   * removes listings or rewrites them without moving them to another owner.
   */
  lemma ListingsOnlyKeepConsistent(db: Db, db': Db)
    requires Consistent(db)
    requires db'.artists == db.artists && db'.nextId == db.nextId
    requires db'.listings.Keys <= db.listings.Keys
    requires forall x | x in db'.listings :: db'.listings[x].owner == db.listings[x].owner
    ensures Consistent(db')
  {
    forall x | x in db'.listings ensures Recorded(db', x) {
      assert Recorded(db, x);
    }
  }

  /** An update keeps the store invariant: it never moves a listing to another owner. */
  lemma UpdateKeepsConsistent(db: Db, requester: Option<Id>, id: Id, b: Body)
    requires Consistent(db)
    ensures Consistent(Update(db, requester, id, b).db)
  {
    var s := Update(db, requester, id, b);
    if s.reply.Is(200) {
      var l := s.reply.payload.listing;
      assert s.db == db.(listings := db.listings[id := l]) && l.owner == db.listings[id].owner;
      ListingsOnlyKeepConsistent(db, s.db);
    }
  }

  /** A deletion keeps the store invariant. */
  lemma DeleteKeepsConsistent(db: Db, requester: Option<Id>, id: Id)
    requires Consistent(db)
    ensures Consistent(Delete(db, requester, id).db)
  {
    var s := Delete(db, requester, id);
    if s.reply.Is(200) {
      ListingsOnlyKeepConsistent(db, s.db);
    }
  }

  /**
   * A deleted listing's id stays in its owner's `arts`: the handler removes
   * the listing only, so `arts` may name listings that no longer exist.
   */
  lemma DeleteLeavesArtsEntry(db: Db, requester: Option<Id>, id: Id)
    requires Consistent(db)
    requires Delete(db, requester, id).reply.Is(200)
    ensures var s := Delete(db, requester, id);
            && id !in s.db.listings
            && s.db.artists == db.artists
            && exists k | 0 <= k < |s.db.artists| :: s.db.artists[k].id == requester.value && id in s.db.artists[k].arts
  {
    assert Recorded(db, id);
    var k := FindArtist(db.artists, db.listings[id].owner).value;
    assert db.artists[k].id == requester.value;
  }

  /**
   * A registration whose body passes the route's validators and whose e-mail
   * is free is answered with 201, and logging in afterwards with the same
   * e-mail and password succeeds and yields a token for the new artist.
   */
  lemma RegisterThenLogin(db: Db, b: Body, salt: nat, isEmail: string -> bool, email: string, password: string)
    requires Get(b, "email") == Str(email) && Get(b, "password") == Str(password)
    requires RunRules(RegisterRules, b, isEmail) == []
    requires FindByEmail(db.artists, email).None?
    ensures var s := Register(db, RunRules(RegisterRules, b, isEmail), b, salt);
            var login := map["email" := Str(email), "password" := Str(password)];
            Login(s.db, RunRules(LoginRules, login, isEmail), login) ==
              Json(200, Session(s.db.artists[|db.artists|], Token(db.nextId)))
  {
    var errors := RunRules(RegisterRules, b, isEmail);
    var s := Register(db, errors, b, salt);
    var login := map["email" := Str(email), "password" := Str(password)];
    RegisterAccepts(b, isEmail);
    LoginAccepts(login, isEmail);
    assert Get(login, "email") == Str(email) && Get(login, "password") == Str(password);
    var a := NewArtist(db.nextId, b, salt);
    assert s.db.artists == db.artists + [a];
    FirstIndexAppend(db.artists, a, (x: Artist) => x.email == email);
  }

  /** With unique e-mails, login succeeds exactly when some artist has the e-mail and the password matches its hash. */
  lemma LoginSucceedsIff(db: Db, b: Body)
    requires Consistent(db)
    ensures Login(db, [], b).Is(200) <==>
            exists k | 0 <= k < |db.artists| ::
              db.artists[k].email == Text(Get(b, "email")) &&
              ComparePassword(Text(Get(b, "password")), db.artists[k].password)
  {
    var e := Text(Get(b, "email"));
    var p := Text(Get(b, "password"));
    if k :| 0 <= k < |db.artists| && db.artists[k].email == e && ComparePassword(p, db.artists[k].password) {
      forall j | 0 <= j < k ensures db.artists[j].email != e {
        assert db.artists[j].email != db.artists[k].email;
      }
      FirstIndexAt(db.artists, (x: Artist) => x.email == e, k);
    }
  }

  /**
   * Only the owner changes or removes a listing: after any update or delete
   * request, every other listing is as it was, the artists are untouched,
   * and if listing `id` changed, the requester is its owner.
   */
  lemma OnlyOwnerMutates(db: Db, requester: Option<Id>, id: Id, b: Body, isDelete: bool)
    ensures var s := if isDelete then Delete(db, requester, id) else Update(db, requester, id, b);
            && s.db.artists == db.artists
            && s.db.nextId == db.nextId
            && (forall x | x != id :: (x in s.db.listings <==> x in db.listings))
            && (forall x | x != id && x in db.listings :: s.db.listings[x] == db.listings[x])
            && ((id in db.listings) != (id in s.db.listings) ||
                (id in db.listings && s.db.listings[id] != db.listings[id]) ==>
                  requester == Some(db.listings[id].owner))
  {
  }
}
