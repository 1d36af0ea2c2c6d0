/** The browser side of customer sign-in: the token and user entries kept
    in local storage, the authorised fetch wrapper and the cart badge in the
    navigation bar (frontend/js/auth.js). The network is a parameter: each
    call is given the answer the server sends, or `None` when the request
    fails. */
module ClientAuth {
  import opened Wrappers
  import Text
  import Cart

  const TokenKey: string := "token"
  const UserKey: string := "user"
  const ContentType: string := "Content-Type"
  const Authorization: string := "Authorization"
  const JsonType: string := "application/json"

  /** A stored token counts only when it is not the empty string. */
  predicate Truthy(token: Option<string>) {
    token.Some? && token.value != ""
  }

  /** The headers `fetchWithAuth` sends: JSON content type unless the caller
      gives its own, the caller's headers, and a bearer header for a stored
      token that replaces any the caller gave. */
  function RequestHeaders(token: Option<string>, callerHeaders: map<string, string>): (h: map<string, string>)
    ensures ContentType in h
    ensures h[ContentType] == (if ContentType in callerHeaders then callerHeaders[ContentType] else JsonType)
    ensures Truthy(token) ==> Authorization in h && h[Authorization] == "Bearer " + token.value
    ensures !Truthy(token) ==>
      (Authorization in h <==> Authorization in callerHeaders)
      && (Authorization in callerHeaders ==> h[Authorization] == callerHeaders[Authorization])
    ensures forall k :: k != ContentType && k != Authorization ==>
      (k in h <==> k in callerHeaders) && (k in callerHeaders ==> h[k] == callerHeaders[k])
  {
    var base := map[ContentType := JsonType] + callerHeaders;
    if Truthy(token) then base[Authorization := "Bearer " + token.value] else base
  }

  /** What the server answered: its status and the `items` field of the
      JSON body, absent on an error body. */
  datatype Answer = Answer(status: int, items: Option<seq<Cart.Line>>)

  /** What `fetchWithAuth` gives back: the answer, or the error it throws. */
  datatype FetchResult = Returned(answer: Answer) | Unauthorized | NetworkError

  /** The sum of the quantities of the cart lines, added left to right. */
  function ItemCount(items: seq<Cart.Line>): (r: int)
    ensures items == [] ==> r == 0
    ensures (forall i :: 0 <= i < |items| ==> items[i].quantity >= 0) ==> r >= 0
    ensures (forall i :: 0 <= i < |items| ==> items[i].quantity > 0) && items != [] ==> r >= |items|
  {
    if items == [] then 0
    else ItemCount(items[..|items| - 1]) + items[|items| - 1].quantity
  }

  /** The badge number: 0 when the body has no `items`. */
  function BadgeCount(items: Option<seq<Cart.Line>>): (r: int)
    ensures items.None? ==> r == 0
    ensures items.Some? ==> r == ItemCount(items.value)
  {
    match items
    case None => 0
    case Some(lines) => ItemCount(lines)
  }

  class ClientStore {
    /** `localStorage`. */
    var storage: map<string, string>
    /** `window.location.href`. */
    var location: string
    /** The cart badge's text and whether it is displayed. */
    var badgeText: string
    var badgeShown: bool

    constructor (storage: map<string, string>, location: string)
      ensures this.storage == storage && this.location == location
      ensures badgeText == "0" && !badgeShown
    {
      this.storage, this.location := storage, location;
      badgeText, badgeShown := "0", false;
    }

    /** `getToken`: the stored token, if any. */
    function GetToken(): (r: Option<string>)
      reads this
      ensures r.Some? <==> TokenKey in storage
      ensures r.Some? ==> r.value == storage[TokenKey]
    {
      if TokenKey in storage then Some(storage[TokenKey]) else None
    }

    /** `isAuthenticated`: a non-empty token is stored. */
    function IsAuthenticated(): (b: bool)
      reads this
      ensures b <==> TokenKey in storage && storage[TokenKey] != ""
    {
      Truthy(GetToken())
    }

    /** `getUser`: the stored user record, serialised; an empty entry counts
        as none. */
    function GetUser(): (r: Option<string>)
      reads this
      ensures r.Some? <==> UserKey in storage && storage[UserKey] != ""
      ensures r.Some? ==> r.value == storage[UserKey]
    {
      if UserKey in storage && storage[UserKey] != "" then Some(storage[UserKey]) else None
    }

    method SetToken(token: string)
      modifies this
      ensures storage == old(storage)[TokenKey := token]
      ensures location == old(location) && badgeText == old(badgeText) && badgeShown == old(badgeShown)
      ensures IsAuthenticated() <==> token != ""
    {
      storage := storage[TokenKey := token];
    }

    method RemoveToken()
      modifies this
      ensures storage == old(storage) - {TokenKey}
      ensures location == old(location) && badgeText == old(badgeText) && badgeShown == old(badgeShown)
      ensures !IsAuthenticated()
    {
      storage := storage - {TokenKey};
    }

    /** `setUser`, given the record already serialised. */
    method SetUser(user: string)
      modifies this
      ensures storage == old(storage)[UserKey := user]
      ensures location == old(location) && badgeText == old(badgeText) && badgeShown == old(badgeShown)
      ensures GetToken() == old(GetToken())
    {
      storage := storage[UserKey := user];
    }

    method RemoveUser()
      modifies this
      ensures storage == old(storage) - {UserKey}
      ensures location == old(location) && badgeText == old(badgeText) && badgeShown == old(badgeShown)
      ensures GetUser().None? && GetToken() == old(GetToken())
    {
      storage := storage - {UserKey};
    }

    /** `logout`: both entries go, nothing else in storage changes, and the
        page goes to the home page. */
    method Logout()
      modifies this
      ensures storage == old(storage) - {TokenKey, UserKey}
      ensures location == "/"
      ensures badgeText == old(badgeText) && badgeShown == old(badgeShown)
      ensures !IsAuthenticated() && GetUser().None?
    {
      RemoveToken();
      RemoveUser();
      location := "/";
    }

    /** `fetchWithAuth`: `sent` is the header object of the request. A 401
        answer signs the user out and throws; a failed request throws
        without touching storage. */
    method FetchWithAuth(callerHeaders: map<string, string>, network: Option<Answer>)
      returns (sent: map<string, string>, r: FetchResult)
      modifies this
      ensures sent == RequestHeaders(old(GetToken()), callerHeaders)
      ensures badgeText == old(badgeText) && badgeShown == old(badgeShown)
      ensures network.None? ==>
        r == NetworkError && storage == old(storage) && location == old(location)
      ensures network.Some? && network.value.status == 401 ==>
        && r == Unauthorized
        && storage == old(storage) - {TokenKey, UserKey}
        && location == "/"
      ensures network.Some? && network.value.status != 401 ==>
        r == Returned(network.value) && storage == old(storage) && location == old(location)
    {
      sent := RequestHeaders(GetToken(), callerHeaders);
      if network.None? {
        return sent, NetworkError;
      }
      if network.value.status == 401 {
        Logout();
        return sent, Unauthorized;
      }
      r := Returned(network.value);
    }

    /** `updateCartBadge`: signed out, the badge reads 0 and is hidden
        without a request; otherwise it shows the item count of the cart,
        displayed only when positive, and any failure resets it to a hidden
        0. */
    method UpdateCartBadge(network: Option<Answer>)
      modifies this
      ensures var count := if network.Some? then BadgeCount(network.value.items) else 0;
        var counted := old(IsAuthenticated()) && network.Some? && network.value.status != 401;
        && badgeText == (if counted then Text.IntToString(count) else "0")
        && badgeShown == (counted && count > 0)
      ensures old(IsAuthenticated()) && network.Some? && network.value.status == 401 ==>
        storage == old(storage) - {TokenKey, UserKey} && location == "/"
      ensures !(old(IsAuthenticated()) && network.Some? && network.value.status == 401) ==>
        storage == old(storage) && location == old(location)
    {
      if !IsAuthenticated() {
        badgeText, badgeShown := "0", false;
        return;
      }
      var _, r := FetchWithAuth(map[], network);
      if r.Returned? {
        var count := BadgeCount(r.answer.items);
        badgeText := Text.IntToString(count);
        badgeShown := count > 0;
      } else {
        badgeText, badgeShown := "0", false;
      }
    }
  }

  /** Changing one line's quantity moves the item count by the change. */
  lemma {:induction false} ItemCountAfterSetAt(items: seq<Cart.Line>, k: nat, quantity: int)
    requires k < |items|
    ensures ItemCount(items[k := items[k].(quantity := quantity)])
         == ItemCount(items) + (quantity - items[k].quantity)
    decreases |items|
  {
    var n := |items|;
    var r := items[k := items[k].(quantity := quantity)];
    if k == n - 1 {
      assert r[..n - 1] == items[..n - 1];
    } else {
      ItemCountAfterSetAt(items[..n - 1], k, quantity);
      assert r[..n - 1] == items[..n - 1][k := items[k].(quantity := quantity)];
    }
  }

  /** Adding `quantity` of a product to the cart raises the badge count by
      exactly `quantity`, whether it merges into a line or appends one. */
  lemma BadgeAfterAdd(items: seq<Cart.Line>, productId: int, productName: string, price: int, quantity: int)
    ensures BadgeCount(Some(Cart.AddItem(items, productId, productName, price, quantity)))
         == BadgeCount(Some(items)) + quantity
  {
    var r := Cart.AddItem(items, productId, productName, price, quantity);
    match Cart.FindLine(items, productId)
    case Some(i) =>
      assert r == items[i := items[i].(quantity := items[i].quantity + quantity)];
      ItemCountAfterSetAt(items, i, items[i].quantity + quantity);
    case None =>
      assert r[..|r| - 1] == items;
  }
}
