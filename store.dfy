/** The storefront's in-memory state (the `App` component and its admin dashboard):
    each handler replaces one state field with a value computed from the old one. */
module Storefront {
  import opened Types
  import opened Lists
  import opened Cart
  import opened Accounts

  /** The catalogue the store starts with. */
  function InitialProducts(): seq<Product> {
    [ Product("1", "ساعة ذكية برو", "ساعة ذكية متطورة تدعم مراقبة الصحة والاتصالات بوضوح عالٍ.",
              15000, "https://picsum.photos/seed/watch/600/400", "إلكترونيات"),
      Product("2", "سماعات لاسلكية", "تجربة صوتية نقية مع تقنية عزل الضوضاء النشطة.",
              8500, "https://picsum.photos/seed/audio/600/400", "إلكترونيات") ]
  }

  /** The picture a new product gets when the image field is left empty. */
  function ImageOrDefault(image: string, name: string): (r: string)
    ensures r != []
    ensures image != [] ==> r == image
  {
    if image != [] then image else "https://picsum.photos/seed/" + name + "/600/400"
  }

  /** What every order in the history satisfies: it is pending, its lines form a
      well-formed cart and its total is the sum of its lines. */
  ghost predicate Placed(o: Order) {
    && o.status == Pending
    && WellFormed(o.items)
    && o.total == SumLines(o.items)
  }

  /** Two headphones (8500 each) and one 4200 item make two lines totalling 21200. */
  lemma TwoLineCartTotal()
    ensures var headphones := InitialProducts()[1];
            var charger := Product("3", "charger", "", 4200, "", "");
            var c := AddLine(AddLine(AddLine([], headphones), headphones), charger);
            |c| == 2 && c[0].quantity == 2 && c[1].quantity == 1 && CartTotal(c) == 21200
  {
    var headphones := InitialProducts()[1];
    var charger := Product("3", "charger", "", 4200, "", "");
    var c1 := AddLine([], headphones);
    assert c1 == [NewLine(headphones)];
    var c2 := AddLine(c1, headphones);
    assert FindLine(c1, headphones.id) == Some(0);
    assert c2 == [NewLine(headphones).(quantity := 2)];
    var c3 := AddLine(c2, charger);
    assert !InCart(c2, charger.id);
    assert c3 == c2 + [NewLine(charger)];
    SumAround(c3, 1);
    assert c3[..1] == c2 && c3[2..] == [];
    SumAround(c2, 0);
    assert c2[..0] == [] && c2[1..] == [];
  }

  /** A session: the built-in admin signs in, adds a 4200 product, puts it in the cart,
      fails to delete the built-in account, and the customer checks out. */
  method FreshProductSession() returns (order: Order)
    ensures order.total == 4200 && order.status == Pending
    ensures |order.items| == 1 && order.items[0].productId == "1700000000000"
  {
    var store := new Store();
    var signedIn := store.Login("admin", "123");
    assert Matches(store.admins[0], "admin", "123");
    assert signedIn;
    var p := store.AddProduct("1700000000000", "charger", "", 4200, "", "");
    store.AddToCart(p);
    var deleted := store.DeleteTeamMember(RootId);
    assert !deleted;
    order := store.Checkout("K3J9X2QWE", Customer("Amina", "0550000000", "Oran"), 1700000000500);
    assert store.cart == [] && order.items == AddLine([], p);
    assert order.items[0] == NewLine(p);
  }

  class Store {
    var products: seq<Product>
    var cart: seq<OrderItem>
    var orders: seq<Order>      // newest first
    var admins: seq<AdminUser>
    var currentUser: Option<AdminUser>
    // The price of every product id ever put in the catalogue; ids are never reused.
    ghost var prices: map<string, int>

    ghost predicate Valid()
      reads this
    {
      && WellFormed(cart)
      && (forall q :: q in products ==> q.id in prices && prices[q.id] == q.price)
      && PricedBy(cart, prices)
      && (forall o :: o in orders ==> Placed(o))
      && InitialAdmins()[0] in admins
      && (currentUser.Some? ==> currentUser.value.password.Some?)
    }

    constructor ()
      ensures Valid()
      ensures products == InitialProducts() && admins == InitialAdmins()
      ensures cart == [] && orders == [] && currentUser == None
      ensures prices == map["1" := 15000, "2" := 8500]
    {
      products := InitialProducts();
      cart := [];
      orders := [];
      admins := InitialAdmins();
      currentUser := None;
      prices := map["1" := 15000, "2" := 8500];
    }

    /** `handleLogin`: signs in the first account whose username and password both match. */
    method Login(username: string, password: string) returns (ok: bool)
      requires Valid()
      modifies this`currentUser
      ensures Valid()
      ensures ok <==> exists i :: 0 <= i < |admins| && Matches(admins[i], username, password)
      ensures ok ==> FirstMatch(admins, username, password).Some? &&
                     currentUser == Some(admins[FirstMatch(admins, username, password).value])
      ensures !ok ==> currentUser == old(currentUser)
    {
      var found := FirstMatch(admins, username, password);
      ok := found.Some?;
      if ok {
        currentUser := Some(admins[found.value]);
      }
    }

    /** `handleLogout`. */
    method Logout()
      requires Valid()
      modifies this`currentUser
      ensures Valid() && currentUser == None
    {
      currentUser := None;
    }

    /** `addToCart`, called from the "add" button of a catalogue entry. */
    method AddToCart(p: Product)
      requires Valid() && p in products
      modifies this`cart
      ensures Valid()
      ensures cart == AddLine(old(cart), p)
      ensures InCart(cart, p.id)
      ensures CartTotal(cart) == old(CartTotal(cart)) + p.price
    {
      AddKeepsWellFormed(cart, p);
      AddKeepsPriced(cart, p, prices);
      AddTotalCurrentPrice(cart, p);
      cart := AddLine(cart, p);
    }

    /** `removeFromCart`. */
    method RemoveFromCart(id: string)
      requires Valid()
      modifies this`cart
      ensures Valid()
      ensures cart == RemoveLines(old(cart), id)
      ensures !InCart(cart, id)
      ensures !InCart(old(cart), id) ==> cart == old(cart)
    {
      RemoveKeepsWellFormed(cart, id);
      RemoveKeepsPriced(cart, id, prices);
      if !InCart(cart, id) {
        RemoveAbsent(cart, id);
      }
      cart := RemoveLines(cart, id);
    }

    /** `handleCheckout`: records the cart as a new pending order at the front of the
        history and empties the cart. The order id and the clock reading are inputs. */
    method Checkout(orderId: string, customer: Customer, now: int) returns (order: Order)
      requires Valid()
      modifies this`cart, this`orders
      ensures Valid()
      ensures order.items == old(cart) && order.total == SumLines(old(cart)) && order.status == Pending
      ensures order.id == orderId && order.createdAt == now
      ensures order.customerName == customer.name && order.phone == customer.phone
      ensures order.address == customer.address
      ensures orders == [order] + old(orders)
      ensures cart == []
    {
      order := Order(orderId, customer.name, customer.phone, customer.address,
                     cart, CartTotal(cart), Pending, now);
      orders := [order] + orders;
      cart := [];
    }

    /** `handleAddProduct`: appends the new product; the dashboard that offers it is
        shown only to a signed-in user. The id (a clock reading, taken to be new) and
        the parsed price are inputs. */
    method AddProduct(id: string, name: string, description: string, price: int,
                      image: string, category: string) returns (p: Product)
      requires Valid() && currentUser.Some?
      requires id !in prices
      modifies this`products, this`prices
      ensures Valid()
      ensures p == Product(id, name, description, price, ImageOrDefault(image, name), category)
      ensures products == old(products) + [p]
      ensures prices == old(prices)[id := price]
    {
      p := Product(id, name, description, price, ImageOrDefault(image, name), category);
      products := products + [p];
      prices := prices[id := price];
    }

    /** `deleteProduct`, once the user has confirmed. */
    method DeleteProduct(id: string)
      requires Valid() && currentUser.Some?
      modifies this`products
      ensures Valid()
      ensures products == Without(old(products), ProductKey, id)
      ensures forall q :: q in products <==> q in old(products) && q.id != id
    {
      products := Without(products, ProductKey, id);
    }

    /** The delete button of the team tab: only a signed-in admin sees the tab, and
        the built-in account has no delete button. The source offers the button only
        for listed members; an id no member has leaves the list as it is. */
    method DeleteTeamMember(id: string) returns (deleted: bool)
      requires Valid() && currentUser.Some?
      modifies this`admins
      ensures Valid()
      ensures deleted <==> CanManageTeam(currentUser) && id != RootId
      ensures admins == if deleted then Without(old(admins), UserKey, id) else old(admins)
      ensures forall a :: a in admins <==> a in old(admins) && (deleted ==> a.id != id)
      ensures (forall a :: a in old(admins) ==> a.id != id) ==> admins == old(admins)
    {
      deleted := CanManageTeam(currentUser) && id != RootId;
      if deleted {
        if forall i :: 0 <= i < |admins| ==> admins[i].id != id {
          WithoutAbsent(admins, UserKey, id);
        }
        admins := Without(admins, UserKey, id);
      }
    }
  }
}
