/**
 * The wishlist: saved products keyed by name alone. The heart button on a
 * product card toggles a name in or out; the "×" button on the wishlist page
 * removes a name.
 */
module Wishlist {
  import opened Store

  /** One saved product. */
  datatype WishEntry = WishEntry(name: string, price: nat, img: string)

  /** No two entries share a name. */
  predicate NamesDistinct(w: seq<WishEntry>) {
    forall i, j :: 0 <= i < j < |w| ==> w[i].name != w[j].name
  }

  /** Whether some entry carries the name (the "liked" state of a card). */
  function Contains(w: seq<WishEntry>, name: string): (b: bool)
    ensures b <==> exists i :: 0 <= i < |w| && w[i].name == name
  {
    if w == [] then false
    else if w[0].name == name then true
    else
      var rest := Contains(w[1..], name);
      assert rest ==> exists i :: 1 <= i < |w| && w[i].name == name by {
        if rest {
          var k :| 0 <= k < |w[1..]| && w[1..][k].name == name;
          assert w[k + 1].name == name;
        }
      }
      rest
  }

  /** The list without any entry of the given name, the others in their order. */
  function WithoutName(w: seq<WishEntry>, name: string): (r: seq<WishEntry>)
    ensures |r| <= |w|
    ensures forall i :: 0 <= i < |r| ==> r[i].name != name
  {
    if w == [] then []
    else if w[0].name == name then WithoutName(w[1..], name)
    else [w[0]] + WithoutName(w[1..], name)
  }

  /** The heart button: a present name is removed, an absent one is appended. */
  function Toggled(w: seq<WishEntry>, e: WishEntry): (r: seq<WishEntry>)
    ensures Contains(r, e.name) == !Contains(w, e.name)
  {
    if Contains(w, e.name) then WithoutName(w, e.name)
    else
      assert (w + [e])[|w|] == e;
      w + [e]
  }

  /** Removal keeps exactly the entries of other names. */
  lemma {:induction false} WithoutNameMembers(w: seq<WishEntry>, name: string)
    ensures forall e :: e in WithoutName(w, name) <==> e in w && e.name != name
  {
    if w != [] {
      WithoutNameMembers(w[1..], name);
      assert w == [w[0]] + w[1..];
    }
  }

  /** Removal shortens the list exactly when the name is present. */
  lemma {:induction false} WithoutNameShortens(w: seq<WishEntry>, name: string)
    ensures |WithoutName(w, name)| == |w| <==> !Contains(w, name)
  {
    if w != [] {
      WithoutNameShortens(w[1..], name);
    }
  }

  /** Removal distributes over concatenation, so the surviving entries keep their order. */
  lemma {:induction false} WithoutNameConcat(a: seq<WishEntry>, b: seq<WishEntry>, name: string)
    ensures WithoutName(a + b, name) == WithoutName(a, name) + WithoutName(b, name)
  {
    if a == [] {
      assert a + b == b;
    } else {
      assert (a + b)[1..] == a[1..] + b;
      WithoutNameConcat(a[1..], b, name);
    }
  }

  /** Removing a name that is not there changes nothing. */
  lemma {:induction false} WithoutAbsentName(w: seq<WishEntry>, name: string)
    requires !Contains(w, name)
    ensures WithoutName(w, name) == w
  {
    if w != [] {
      assert w[0].name != name;
      assert !Contains(w[1..], name);
      WithoutAbsentName(w[1..], name);
      assert w == [w[0]] + w[1..];
    }
  }

  /** In a list of distinct names, the name at k occurs nowhere before or after k. */
  lemma DistinctNameIsolated(w: seq<WishEntry>, k: int)
    requires NamesDistinct(w) && 0 <= k < |w|
    ensures !Contains(w[..k], w[k].name) && !Contains(w[k + 1..], w[k].name)
  {
    var pre, post := w[..k], w[k + 1..];
    forall i | 0 <= i < |pre| ensures pre[i].name != w[k].name {
      assert pre[i] == w[i];
    }
    forall i | 0 <= i < |post| ensures post[i].name != w[k].name {
      assert post[i] == w[k + 1 + i];
    }
  }

  /** Removing the name of the one entry that carries it drops exactly that entry. */
  lemma RemoveIsolated(pre: seq<WishEntry>, x: WishEntry, post: seq<WishEntry>)
    requires !Contains(pre, x.name) && !Contains(post, x.name)
    ensures WithoutName(pre + [x] + post, x.name) == pre + post
  {
    var name := x.name;
    WithoutNameConcat(pre + [x], post, name);
    WithoutNameConcat(pre, [x], name);
    WithoutAbsentName(pre, name);
    WithoutAbsentName(post, name);
    assert WithoutName([x], name) == [] by {
      assert [x][1..] == [];
    }
  }

  /** In a list of distinct names, removing the name at k removes exactly that entry. */
  lemma RemoveDistinctName(w: seq<WishEntry>, k: int)
    requires NamesDistinct(w) && 0 <= k < |w|
    ensures WithoutName(w, w[k].name) == w[..k] + w[k + 1..]
  {
    var pre, x, post := w[..k], w[k], w[k + 1..];
    DistinctNameIsolated(w, k);
    RemoveIsolated(pre, x, post);
    assert WithoutName(pre + [x] + post, x.name) == pre + post;
    assert w == pre + [x] + post;
  }

  /** Removal keeps names distinct. */
  lemma {:induction false} WithoutNameKeepsDistinct(w: seq<WishEntry>, name: string)
    requires NamesDistinct(w)
    ensures NamesDistinct(WithoutName(w, name))
  {
    if w != [] {
      var tail := w[1..];
      assert NamesDistinct(tail) by {
        forall i, j | 0 <= i < j < |tail| ensures tail[i].name != tail[j].name {
          assert tail[i] == w[i + 1] && tail[j] == w[j + 1];
        }
      }
      WithoutNameKeepsDistinct(tail, name);
      var rest := WithoutName(tail, name);
      if w[0].name != name {
        var r := [w[0]] + rest;
        forall i, j | 0 <= i < j < |r| ensures r[i].name != r[j].name {
          if i == 0 {
            assert r[j] == rest[j - 1];
            WithoutNameMembers(tail, name);
            assert rest[j - 1] in tail;
            var m :| 0 <= m < |tail| && tail[m] == rest[j - 1];
            assert tail[m] == w[m + 1];
          } else {
            assert r[i] == rest[i - 1] && r[j] == rest[j - 1];
          }
        }
      }
    }
  }

  /** The toggle keeps names distinct. */
  lemma ToggleKeepsDistinct(w: seq<WishEntry>, e: WishEntry)
    requires NamesDistinct(w)
    ensures NamesDistinct(Toggled(w, e))
  {
    if Contains(w, e.name) {
      WithoutNameKeepsDistinct(w, e.name);
    } else {
      var r := w + [e];
      forall i, j | 0 <= i < j < |r| ensures r[i].name != r[j].name {
        assert r[i] == w[i];
        if j < |w| { assert r[j] == w[j]; }
      }
    }
  }

  /** Toggling a name that is absent appends exactly one entry. */
  lemma ToggleAbsentAppends(w: seq<WishEntry>, e: WishEntry)
    requires !Contains(w, e.name)
    ensures Toggled(w, e) == w + [e]
  {
  }

  /** Toggling a present name leaves no entry of that name and drops nothing else. */
  lemma TogglePresentRemoves(w: seq<WishEntry>, e: WishEntry)
    requires Contains(w, e.name)
    ensures Toggled(w, e) == WithoutName(w, e.name)
    ensures forall x :: x in Toggled(w, e) <==> x in w && x.name != e.name
    ensures |Toggled(w, e)| < |w|
  {
    WithoutNameMembers(w, e.name);
    WithoutNameShortens(w, e.name);
  }

  /** Toggling twice, from a list without the name, restores the list and its order. */
  lemma ToggleTwiceRestores(w: seq<WishEntry>, e: WishEntry)
    requires !Contains(w, e.name)
    ensures Toggled(Toggled(w, e), e) == w
  {
    var once := w + [e];
    assert Toggled(w, e) == once;
    assert Contains(once, e.name);
    WithoutNameConcat(w, [e], e.name);
    WithoutAbsentName(w, e.name);
    assert WithoutName([e], e.name) == [];
  }

  /** The browser-side wishlist, reread from and written back to its storage key on every change. */
  class WishlistStore {
    var slot: Stored<WishEntry>

    constructor (stored: Stored<WishEntry>)
      ensures slot == stored
    {
      slot := stored;
    }

    /** What a read of the wishlist key gives now. */
    function Entries(): seq<WishEntry>
      reads this
    {
      Load(slot)
    }

    /**
     * The heart button on a product card. Returns whether the card shows as
     * liked afterwards.
     */
    method Toggle(title: string, price: nat, img: string) returns (liked: bool)
      modifies this
      ensures slot == Save(Toggled(old(Entries()), WishEntry(title, price, img)))
      ensures liked == !Contains(old(Entries()), title)
      ensures NamesDistinct(old(Entries())) ==> NamesDistinct(Entries())
    {
      var wishlist := Load(slot);
      ghost var before := wishlist;
      if Contains(wishlist, title) {
        wishlist := WithoutName(wishlist, title);
      } else {
        wishlist := wishlist + [WishEntry(title, price, img)];
      }
      slot := Save(wishlist);
      liked := Contains(wishlist, title);
      if NamesDistinct(before) {
        ToggleKeepsDistinct(before, WishEntry(title, price, img));
      }
    }

    /** The "×" button on the wishlist page. */
    method Remove(name: string)
      modifies this
      ensures slot == Save(WithoutName(old(Entries()), name))
      ensures !Contains(Entries(), name)
    {
      var w := Load(slot);
      w := WithoutName(w, name);
      slot := Save(w);
    }
  }
}
