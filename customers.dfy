/**
 * The guest-registration ledger of the db-manager service: customer records,
 * the headcount total, the registration decision, the arrival rewrite, and
 * the ledger as a state machine driven by the three writing requests.
 */
module Customers {
  import opened Wrappers
  import opened FormText

  /** The most people the ledger admits in total. */
  const Capacity: int := 50

  /** Parties larger than this must give a second phone number. */
  const SecondPhoneThreshold: int := 6

  /** One registered party, as stored in the data file. */
  datatype Customer = Customer(
    name: string,
    phone: string,
    room: int,
    amount: int,
    arrived: bool,
    secondPhone: string)

  /**
   * The registration form as submitted. A field the browser did not send
   * reads as the empty string, as `request.form.get(key, "")` does.
   */
  datatype RegisterForm = RegisterForm(
    name: string,
    phone: string,
    room: string,
    amount: string,
    secondPhone: string)

  /** Why a registration was refused; each is reported to the user and nothing is stored. */
  datatype RegisterError =
    | MissingField              // a required field is blank
    | NotANumber                // room or amount is not an integer
    | SecondPhoneRequired       // more than six people and no second phone
    | OverCapacity(current: int) // the total would pass the cap; carries the current total

  /** `total_people`: the number of people over all registered parties. */
  function TotalPeople(data: seq<Customer>): (r: int)
    ensures data == [] ==> r == 0
    ensures (forall i :: 0 <= i < |data| ==> data[i].amount >= 0) ==> r >= 0
  {
    if data == [] then 0 else data[0].amount + TotalPeople(data[1..])
  }

  /** The headcount of two ledgers laid end to end is the sum of their headcounts. */
  lemma {:induction false} TotalPeopleConcat(a: seq<Customer>, b: seq<Customer>)
    ensures TotalPeople(a + b) == TotalPeople(a) + TotalPeople(b)
  {
    if a == [] {
      assert a + b == b;
    } else {
      assert (a + b)[1..] == a[1..] + b;
      TotalPeopleConcat(a[1..], b);
    }
  }

  /** Appending one party raises the headcount by exactly its size. */
  lemma TotalPeopleAppend(data: seq<Customer>, c: Customer)
    ensures TotalPeople(data + [c]) == TotalPeople(data) + c.amount
  {
    TotalPeopleConcat(data, [c]);
  }

  /** Some required field (name, phone, room, amount) is blank after stripping. */
  predicate BlankRequired(form: RegisterForm) {
    Strip(form.name) == [] || Strip(form.phone) == [] || Strip(form.room) == [] || Strip(form.amount) == []
  }

  /** Both room and amount read as integers after stripping. */
  predicate NumericFields(form: RegisterForm) {
    ParseInt(Strip(form.room)).Some? && ParseInt(Strip(form.amount)).Some?
  }

  /**
   * The decision of the registration handler: the checks run in the order
   * blank fields, integer parsing, second phone, capacity; the first that
   * fails decides the error. When all pass, the record to append, which is
   * not yet arrived and fits under the cap.
   */
  function Admit(data: seq<Customer>, form: RegisterForm): (r: Result<Customer, RegisterError>)
    ensures r.Success? ==> !r.value.arrived && TotalPeople(data) + r.value.amount <= Capacity
  {
    var name := Strip(form.name);
    var phone := Strip(form.phone);
    var room := Strip(form.room);
    var amount := Strip(form.amount);
    var secondPhone := Strip(form.secondPhone);
    if name == [] || phone == [] || room == [] || amount == [] then
      Failure(MissingField)
    else
      match (ParseInt(room), ParseInt(amount))
      case (Some(roomNo), Some(size)) =>
        if size > SecondPhoneThreshold && secondPhone == [] then
          Failure(SecondPhoneRequired)
        else if TotalPeople(data) + size > Capacity then
          Failure(OverCapacity(TotalPeople(data)))
        else
          Success(Customer(name, phone, roomNo, size, false, secondPhone))
      case _ =>
        Failure(NotANumber)
  }

  /**
   * Which check refuses a registration. A blank required field is reported
   * whatever else the form or the ledger holds; a non-integer room or amount
   * only when no field is blank; a missing second phone only when both parse;
   * the cap only when all of these pass, and then with the current total.
   */
  lemma AdmitChecksInOrder(data: seq<Customer>, form: RegisterForm)
    ensures BlankRequired(form) <==> Admit(data, form) == Failure(MissingField)
    ensures Admit(data, form) == Failure(NotANumber) <==> !BlankRequired(form) && !NumericFields(form)
    ensures Admit(data, form) == Failure(SecondPhoneRequired) <==>
      && !BlankRequired(form) && NumericFields(form)
      && ParseInt(Strip(form.amount)).value > SecondPhoneThreshold
      && Strip(form.secondPhone) == []
    ensures Admit(data, form).Failure? && Admit(data, form).error.OverCapacity? <==>
      && !BlankRequired(form) && NumericFields(form)
      && !(ParseInt(Strip(form.amount)).value > SecondPhoneThreshold && Strip(form.secondPhone) == [])
      && TotalPeople(data) + ParseInt(Strip(form.amount)).value > Capacity
    ensures Admit(data, form).Failure? && Admit(data, form).error.OverCapacity? ==>
      Admit(data, form).error.current == TotalPeople(data)
  {
    var r := Admit(data, form);
    var room, amount := ParseInt(Strip(form.room)), ParseInt(Strip(form.amount));
    if BlankRequired(form) {
      assert r == Failure(MissingField);
    } else if room.None? || amount.None? {
      assert r == Failure(NotANumber);
    } else if amount.value > SecondPhoneThreshold && Strip(form.secondPhone) == [] {
      assert r == Failure(SecondPhoneRequired);
    } else if TotalPeople(data) + amount.value > Capacity {
      assert r == Failure(OverCapacity(TotalPeople(data)));
    } else {
      assert r == Success(Customer(Strip(form.name), Strip(form.phone), room.value, amount.value, false, Strip(form.secondPhone)));
    }
  }

  /**
   * The record a successful registration appends: the stripped name, phone
   * and second phone, the parsed room and amount, not yet arrived; a party
   * of more than six has a second phone.
   */
  lemma AdmittedRecord(data: seq<Customer>, form: RegisterForm)
    requires Admit(data, form).Success?
    ensures var c := Admit(data, form).value;
      && c.name == Strip(form.name) != []
      && c.phone == Strip(form.phone) != []
      && Some(c.room) == ParseInt(Strip(form.room))
      && Some(c.amount) == ParseInt(Strip(form.amount))
      && !c.arrived
      && c.secondPhone == Strip(form.secondPhone)
      && (c.amount > SecondPhoneThreshold ==> c.secondPhone != [])
  {
    AdmitChecksInOrder(data, form);
    var room, amount := ParseInt(Strip(form.room)), ParseInt(Strip(form.amount));
    assert Admit(data, form)
        == Success(Customer(Strip(form.name), Strip(form.phone), room.value, amount.value, false, Strip(form.secondPhone)));
  }

  /**
   * A successful registration raises the headcount by exactly the party's
   * size and leaves it within the cap, whatever the sign of the size and
   * whatever the headcount was before.
   */
  lemma AdmitKeepsCapacity(data: seq<Customer>, form: RegisterForm)
    requires Admit(data, form).Success?
    ensures var c := Admit(data, form).value;
      TotalPeople(data + [c]) == TotalPeople(data) + c.amount <= Capacity
  {
    TotalPeopleAppend(data, Admit(data, form).value);
  }

  /** One party after the arrival form: arrived exactly when its name was ticked. */
  function MarkFrom(c: Customer, selected: seq<string>): (r: Customer)
    ensures r.arrived <==> c.name in selected
    ensures r.(arrived := c.arrived) == c
  {
    c.(arrived := c.name in selected)
  }

  /**
   * The ledger after the arrival form: same parties in the same order, each
   * unchanged but for its arrived flag, which is now whether its name is
   * among the selected names.
   */
  function WithArrivals(data: seq<Customer>, selected: seq<string>): (r: seq<Customer>)
    ensures |r| == |data|
    ensures forall i :: 0 <= i < |r| ==>
      && r[i].name == data[i].name
      && r[i].phone == data[i].phone
      && r[i].room == data[i].room
      && r[i].amount == data[i].amount
      && r[i].secondPhone == data[i].secondPhone
      && (r[i].arrived <==> data[i].name in selected)
    // parties that share a name share the flag
    ensures forall i, j :: 0 <= i < |r| && 0 <= j < |r| && data[i].name == data[j].name ==> r[i].arrived == r[j].arrived
  {
    seq(|data|, i requires 0 <= i < |data| => MarkFrom(data[i], selected))
  }

  /** Marking arrivals never changes the headcount. */
  lemma {:induction false} WithArrivalsKeepsTotal(data: seq<Customer>, selected: seq<string>)
    ensures TotalPeople(WithArrivals(data, selected)) == TotalPeople(data)
  {
    if data != [] {
      assert WithArrivals(data, selected)[1..] == WithArrivals(data[1..], selected);
      WithArrivalsKeepsTotal(data[1..], selected);
    }
  }

  /** Submitting the same arrival selection twice is the same as submitting it once. */
  lemma WithArrivalsIdempotent(data: seq<Customer>, selected: seq<string>)
    ensures WithArrivals(WithArrivals(data, selected), selected) == WithArrivals(data, selected)
  {
  }

  /** The requests that change the ledger: POST /register, POST /arrived, POST /delete_all. */
  datatype Request =
    | Register(form: RegisterForm)
    | Arrived(selected: seq<string>)
    | DeleteAll

  /** The ledger after one request: a refused registration leaves it as it was. */
  function Apply(data: seq<Customer>, req: Request): (r: seq<Customer>)
    ensures req.Register? ==> data <= r && |r| <= |data| + 1
    ensures req.Register? && |r| == |data| + 1 ==> TotalPeople(r) <= Capacity
    ensures req.Arrived? ==> |r| == |data| && TotalPeople(r) == TotalPeople(data)
    ensures req.DeleteAll? ==> r == []
  {
    match req
    case Register(form) =>
      (match Admit(data, form)
       case Success(c) => AdmitKeepsCapacity(data, form); data + [c]
       case Failure(_) => data)
    case Arrived(selected) => WithArrivalsKeepsTotal(data, selected); WithArrivals(data, selected)
    case DeleteAll => []
  }

  /** The ledger after a run of requests, applied in order. */
  function Replay(data: seq<Customer>, reqs: seq<Request>): seq<Customer>
    decreases |reqs|
  {
    if reqs == [] then data else Replay(Apply(data, reqs[0]), reqs[1..])
  }

  /** Every request keeps a ledger within the cap. */
  lemma ApplyKeepsCapacity(data: seq<Customer>, req: Request)
    requires TotalPeople(data) <= Capacity
    ensures TotalPeople(Apply(data, req)) <= Capacity
  {
    match req
    case Register(form) =>
      if Admit(data, form).Success? { AdmitKeepsCapacity(data, form); }
    case Arrived(selected) =>
      WithArrivalsKeepsTotal(data, selected);
    case DeleteAll =>
  }

  /**
   * Starting from a ledger within the cap (the empty ledger of a missing
   * data file, for one), no run of requests takes the headcount above 50.
   */
  lemma {:induction false} ReplayKeepsCapacity(data: seq<Customer>, reqs: seq<Request>)
    requires TotalPeople(data) <= Capacity
    ensures TotalPeople(Replay(data, reqs)) <= Capacity
    decreases |reqs|
  {
    if reqs != [] {
      ApplyKeepsCapacity(data, reqs[0]);
      ReplayKeepsCapacity(Apply(data, reqs[0]), reqs[1..]);
    }
  }
}
