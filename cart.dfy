/** The client's cart: an ordered list of tracks keyed by `spotify_url`,
    with toggle, remove and clear (frontend/App.tsx). */
module Cart {
  import opened Common

  /** A track as the client holds it. Search hits from the external catalog
      may lack `music_no`, and `spotify_url` may be undefined; two undefined
      URLs compare equal under `===`, which `Option` equality reproduces. */
  datatype Music = Music(music_no: Option<int>, spotify_url: Option<string>, title: string, artist: string)

  /** Some entry of `cart` has the key `url` (`cart.some(c => c.spotify_url === url)`). */
  predicate InCart(cart: seq<Music>, url: Option<string>) {
    exists m :: m in cart && m.spotify_url == url
  }

  /** No two entries share a `spotify_url`. */
  predicate UniqueUrls(cart: seq<Music>) {
    forall i, j :: 0 <= i < j < |cart| ==> cart[i].spotify_url != cart[j].spotify_url
  }

  /** `cart.filter(c => c.spotify_url !== url)`: the cart side bar's `onRemove`
      and the removing half of `toggleCart`. */
  function Without(cart: seq<Music>, url: Option<string>): (r: seq<Music>)
    ensures |r| <= |cart|
    ensures forall m :: m in r <==> m in cart && m.spotify_url != url
    ensures !InCart(r, url)
    ensures InCart(cart, url) ==> |r| < |cart|
  {
    if cart == [] then []
    else
      assert forall m :: m in cart ==> m == cart[0] || m in cart[1..];
      (if cart[0].spotify_url == url then [] else [cart[0]]) + Without(cart[1..], url)
  }

  /** One step of the filter: the first entry is kept unless it has the key. */
  lemma WithoutCons(h: Music, t: seq<Music>, url: Option<string>)
    ensures Without([h] + t, url) == (if h.spotify_url == url then [] else [h]) + Without(t, url)
  {
    assert ([h] + t)[0] == h && ([h] + t)[1..] == t;
  }

  lemma ConcatAssoc(x: seq<Music>, y: seq<Music>, z: seq<Music>)
    ensures x + (y + z) == (x + y) + z
  {
  }

  /** Filtering distributes over concatenation, so the kept entries stay in
      their original order. */
  lemma {:induction false} WithoutAppend(a: seq<Music>, b: seq<Music>, url: Option<string>)
    ensures Without(a + b, url) == Without(a, url) + Without(b, url)
  {
    if a != [] {
      var h := if a[0].spotify_url == url then [] else [a[0]];
      assert a + b == [a[0]] + (a[1..] + b);
      assert a == [a[0]] + a[1..];
      WithoutCons(a[0], a[1..] + b, url);
      WithoutCons(a[0], a[1..], url);
      WithoutAppend(a[1..], b, url);
      ConcatAssoc(h, Without(a[1..], url), Without(b, url));
    } else {
      assert a + b == b;
    }
  }

  /** Removing a key that is absent changes nothing. */
  lemma {:induction false} WithoutAbsent(cart: seq<Music>, url: Option<string>)
    requires !InCart(cart, url)
    ensures Without(cart, url) == cart
  {
    if cart != [] {
      assert cart[0] in cart;
      assert forall m :: m in cart[1..] ==> m in cart;
      assert cart == [cart[0]] + cart[1..];
      WithoutCons(cart[0], cart[1..], url);
      WithoutAbsent(cart[1..], url);
    }
  }

  /** A cart is free of duplicate keys when its first entry's key does not
      occur again and the rest is free of them. */
  lemma UniqueCons(h: Music, t: seq<Music>)
    ensures UniqueUrls([h] + t) <==> (forall m :: m in t ==> m.spotify_url != h.spotify_url) && UniqueUrls(t)
  {
    var c := [h] + t;
    assert forall i :: 0 <= i < |t| ==> c[i + 1] == t[i];
    if UniqueUrls(c) {
      forall m | m in t
        ensures m.spotify_url != h.spotify_url
      {
        var i :| 0 <= i < |t| && t[i] == m;
        assert c[0].spotify_url != c[i + 1].spotify_url;
      }
    }
  }

  /** Removing keeps the cart free of duplicate keys. */
  lemma {:induction false} WithoutKeepsUnique(cart: seq<Music>, url: Option<string>)
    requires UniqueUrls(cart)
    ensures UniqueUrls(Without(cart, url))
  {
    if cart != [] {
      var rest := Without(cart[1..], url);
      assert cart == [cart[0]] + cart[1..];
      UniqueCons(cart[0], cart[1..]);
      WithoutCons(cart[0], cart[1..], url);
      WithoutKeepsUnique(cart[1..], url);
      if cart[0].spotify_url != url {
        UniqueCons(cart[0], rest);
      } else {
        assert [] + rest == rest;
      }
    }
  }

  /** `toggleCart(song)`: when no entry shares the song's key it is appended
      at the end, otherwise every entry with that key is removed. */
  function Toggle(cart: seq<Music>, song: Music): (r: seq<Music>)
    ensures InCart(r, song.spotify_url) <==> !InCart(cart, song.spotify_url)
    ensures forall m: Music :: m.spotify_url != song.spotify_url ==> (m in r <==> m in cart)
    ensures !InCart(cart, song.spotify_url) ==> |r| == |cart| + 1 && r[..|cart|] == cart && r[|cart|] == song
    ensures InCart(cart, song.spotify_url) ==> |r| < |cart|
  {
    if InCart(cart, song.spotify_url) then
      var m :| m in cart && m.spotify_url == song.spotify_url;
      assert m !in Without(cart, song.spotify_url);
      Without(cart, song.spotify_url)
    else
      var r := cart + [song];
      assert song in r;
      r
  }

  /** Removing by toggling is exactly the filter, so the other entries keep
      their order. */
  lemma ToggleRemovesInOrder(cart: seq<Music>, song: Music)
    requires InCart(cart, song.spotify_url)
    ensures Toggle(cart, song) == Without(cart, song.spotify_url)
  {
  }

  /** Toggling the same song twice, from a cart without its key, restores the cart. */
  lemma ToggleTwice(cart: seq<Music>, song: Music)
    requires !InCart(cart, song.spotify_url)
    ensures Toggle(Toggle(cart, song), song) == cart
  {
    var once := cart + [song];
    assert Toggle(cart, song) == once;
    WithoutAppend(cart, [song], song.spotify_url);
    WithoutAbsent(cart, song.spotify_url);
    assert Without([song], song.spotify_url) == [];
  }

  /** Toggling never creates two entries with the same key. */
  lemma ToggleKeepsUnique(cart: seq<Music>, song: Music)
    requires UniqueUrls(cart)
    ensures UniqueUrls(Toggle(cart, song))
  {
    if InCart(cart, song.spotify_url) {
      WithoutKeepsUnique(cart, song.spotify_url);
    } else {
      var r := cart + [song];
      assert forall i :: 0 <= i < |cart| ==> cart[i] in cart;
      assert forall i :: 0 <= i < |cart| ==> r[i] == cart[i];
    }
  }
}
