/** The shop's records: categories, products, sales and expenses, with the
    field shapes, defaults and string renderings the application gives them. */
module Models {
  import opened Optional
  import opened Text
  import opened Money

  type Month = m: int | 1 <= m <= 12 witness 1

  /** A calendar date. `day` numbers days consecutively, so "six days before"
      is `day - 6`; `year` and `month` name the calendar month that day falls
      in. The calendar that links the two is not part of this model: whoever
      makes a `Stamp` supplies both. */
  datatype Stamp = Stamp(day: int, year: int, month: Month)

  /** A product category; it renders as its `name`. */
  datatype Category = Category(id: nat, name: string)

  /** A product. Money fields are in paise; `stockQuantity` is a plain
      integer, with no lower bound in the schema. A product renders as its
      `name`. `category` is the id of its category. */
  datatype Product = Product(
    id: nat,
    name: string,
    category: nat,
    price: int,
    costPrice: int,
    stockQuantity: int,
    imageUrl: string)

  /** The position of the product with primary key `pk` in a product
      table, or `None` when there is none (`get_object_or_404` then answers
      "not found"). */
  function ProductIndex(ps: seq<Product>, pk: nat): (r: Option<nat>)
    ensures r.Some? ==> r.value < |ps| && ps[r.value].id == pk
    ensures r.None? ==> forall k :: 0 <= k < |ps| ==> ps[k].id != pk
  {
    if ps == [] then None
    else if ps[|ps| - 1].id == pk then Some(|ps| - 1)
    else ProductIndex(ps[..|ps| - 1], pk)
  }

  /** The primary keys present in a product table. */
  function ProductIds(ps: seq<Product>): set<nat>
  {
    set p | p in ps :: p.id
  }

  /** The cost price a product gets when none is given. */
  const DefaultCostPrice: int := 0

  /** A recorded sale of `quantity` units of the product with id `product`.
      `quantity` is a non-negative integer (0 is allowed by the schema);
      `totalPrice` is fixed when the sale is made and never recomputed. */
  datatype Sale = Sale(
    product: nat,
    quantity: nat,
    totalPrice: int,
    saleDate: Stamp,
    soldBy: string)

  /** The five kinds of operating expense. */
  datatype ExpenseCategory = Rent | Salary | Bills | Maintenance | Other

  const DefaultExpenseCategory: ExpenseCategory := Other

  /** An operating expense (rent, bills, ...) recorded by a user. */
  datatype Expense = Expense(
    title: string,
    amount: int,
    category: ExpenseCategory,
    dateAdded: Stamp,
    addedBy: string)

  /** The value stored in the database for an expense category. */
  function Code(c: ExpenseCategory): string
  {
    match c
    case Rent => "Rent"
    case Salary => "Salary"
    case Bills => "Bills"
    case Maintenance => "Maintenance"
    case Other => "Other"
  }

  /** The human-readable name shown for an expense category. */
  function Label(c: ExpenseCategory): string
  {
    match c
    case Rent => "Shop Rent"
    case Salary => "Staff Salary"
    case Bills => "Electricity/Water Bills"
    case Maintenance => "Repairs & Maintenance"
    case Other => "Other"
  }

  /** The choice validation of the category field: a stored value is accepted
      exactly when it is one of the five codes. */
  function ParseCategory(code: string): (r: Option<ExpenseCategory>)
    ensures r.Some? <==> code in {"Rent", "Salary", "Bills", "Maintenance", "Other"}
    ensures r.Some? ==> Code(r.value) == code
  {
    if code == "Rent" then Some(Rent)
    else if code == "Salary" then Some(Salary)
    else if code == "Bills" then Some(Bills)
    else if code == "Maintenance" then Some(Maintenance)
    else if code == "Other" then Some(Other)
    else None
  }

  /** Every category's stored code is accepted and means that category, and
      distinct categories have distinct codes. */
  lemma {:induction false} CategoryCodeRoundTrip(c: ExpenseCategory, d: ExpenseCategory)
    ensures ParseCategory(Code(c)) == Some(c)
    ensures Code(c) == Code(d) ==> c == d
  {
    assert ParseCategory(Code(c)) == Some(c);
    if Code(c) == Code(d) {
      assert ParseCategory(Code(d)) == Some(d);
    }
  }

  /** An expense stored without a category gets the code "Other", which the
      choice validation accepts, and it is shown as "Other". */
  lemma {:induction false} DefaultCategoryAccepted()
    ensures Code(DefaultExpenseCategory) == "Other"
    ensures ParseCategory(Code(DefaultExpenseCategory)) == Some(DefaultExpenseCategory)
    ensures Label(DefaultExpenseCategory) == "Other"
  {
    CategoryCodeRoundTrip(DefaultExpenseCategory, DefaultExpenseCategory);
  }

  /** How a sale renders: "<quantity> x <product name> sold by <username>". */
  function SaleLabel(s: Sale, productName: string): (r: string)
    ensures |r| >= |NatDigits(s.quantity)| + 3 + |s.soldBy|
    ensures r[..|NatDigits(s.quantity)| + 3] == NatDigits(s.quantity) + " x "
    ensures r[|r| - |s.soldBy|..] == s.soldBy
  {
    NatDigits(s.quantity) + " x " + productName + " sold by " + s.soldBy
  }

  /** The number at the head of a sale's label is its quantity. */
  lemma {:induction false} SaleLabelQuantity(s: Sale, productName: string)
    ensures var head := LeadingDigits(SaleLabel(s, productName));
            head == NatDigits(s.quantity) && DigitsValue(head) == s.quantity
  {
    var digits := NatDigits(s.quantity);
    var rest := " x " + productName + " sold by " + s.soldBy;
    assert SaleLabel(s, productName) == digits + rest;
    LeadingDigitsOf(digits, rest);
    DigitsRoundTrip(s.quantity);
  }

  /** The rupee sign as the three characters the application's source text
      holds for it. */
  const RupeeSign: string := "\U{E2}\U{201A}\U{B9}"

  /** How an expense renders: "<title> - <rupee sign><amount>", the amount
      with two decimals. */
  function ExpenseLabel(e: Expense): (r: string)
    ensures |r| > |e.title| + 3 + |RupeeSign|
    ensures r[..|e.title|] == e.title
    ensures ParseFixed2(r[|e.title| + 3 + |RupeeSign|..]) == Some(e.amount)
  {
    var r := e.title + " - " + RupeeSign + Fixed2(e.amount);
    assert r[|e.title| + 3 + |RupeeSign|..] == Fixed2(e.amount);
    Fixed2RoundTrip(e.amount);
    r
  }
}
