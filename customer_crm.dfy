/** The customer table view (src/components/CustomerCRM.js): loading the list,
    adding, editing and deleting customers through the service, the error
    banner, and the search box's filter. The service replies and the delete
    confirmation are inputs. */
module CustomerCrm {
  import opened Common
  import opened Text
  import opened Seqs
  import opened Airtable

  /** The add form's five inputs. */
  datatype CustomerForm = CustomerForm(
    name: string,
    email: string,
    appointmentOn: string,
    appointmentFor: string,
    timing: string)

  const EmptyForm: CustomerForm := CustomerForm("", "", "", "", "")

  /** The form as the `customerData` of `createCustomer`: every property present. */
  function FormInput(f: CustomerForm): CustomerInput
  {
    CustomerInput(Some(f.name), Some(f.email), Some(f.appointmentOn), Some(f.appointmentFor), Some(f.timing))
  }

  /** A customer being edited, as the `customerData` of `updateCustomer`. */
  function CustomerAsInput(c: Customer): CustomerInput
  {
    CustomerInput(Some(c.name), Some(c.email), Some(c.appointmentOn), Some(c.appointmentFor), Some(c.timing))
  }

  /** `customers.map(c => c.id === id ? updated : c)`. */
  function ReplaceById(cs: seq<Customer>, id: string, updated: Customer): (r: seq<Customer>)
    ensures |r| == |cs|
    ensures forall i :: 0 <= i < |cs| && cs[i].id == id ==> r[i] == updated
    ensures forall i :: 0 <= i < |cs| && cs[i].id != id ==> r[i] == cs[i]
  {
    if cs == [] then []
    else [if cs[0].id == id then updated else cs[0]] + ReplaceById(cs[1..], id, updated)
  }

  /** Editing a customer whose id is not in the list changes nothing. */
  lemma {:induction false} ReplaceAbsentId(cs: seq<Customer>, id: string, updated: Customer)
    requires forall c :: c in cs ==> c.id != id
    ensures ReplaceById(cs, id, updated) == cs
  {
    if cs != [] {
      assert cs[0] in cs;
      assert forall c :: c in cs[1..] ==> c in cs;
      ReplaceAbsentId(cs[1..], id, updated);
      assert cs == [cs[0]] + cs[1..];
    }
  }

  /** `customers.filter(c => c.id !== id)`. */
  function RemoveById(cs: seq<Customer>, id: string): (r: seq<Customer>)
    ensures forall c :: c in r <==> c in cs && c.id != id
    ensures forall c :: multiset(r)[c] == if c.id != id then multiset(cs)[c] else 0
    ensures IsSubsequence(r, cs)
  {
    Filter(cs, (c: Customer) => c.id != id)
  }

  /** Deleting a customer just added under a fresh id restores the list. */
  lemma AddThenRemove(cs: seq<Customer>, c: Customer)
    requires forall x :: x in cs ==> x.id != c.id
    ensures RemoveById(cs + [c], c.id) == cs
  {
    FilterAppend(cs, [c], (x: Customer) => x.id != c.id);
    FilterKeepsAll(cs, (x: Customer) => x.id != c.id);
    assert Filter([c], (x: Customer) => x.id != c.id) == [];
  }

  /** The search box's test: the lowercased term occurs in the lowercased name,
      e-mail or appointment purpose. */
  predicate TableMatches(c: Customer, term: string)
  {
    Contains(Lower(c.name), Lower(term)) ||
    Contains(Lower(c.email), Lower(term)) ||
    Contains(Lower(c.appointmentFor), Lower(term))
  }

  /** `filteredCustomers`. */
  function FilterCustomers(cs: seq<Customer>, term: string): (r: seq<Customer>)
    ensures forall c :: c in r <==> c in cs && TableMatches(c, term)
    ensures forall c :: multiset(r)[c] == if TableMatches(c, term) then multiset(cs)[c] else 0
    ensures IsSubsequence(r, cs)
  {
    Filter(cs, c => TableMatches(c, term))
  }

  /** An empty search box shows every customer. */
  lemma EmptyTermShowsAll(cs: seq<Customer>)
    ensures FilterCustomers(cs, "") == cs
  {
    forall c | c in cs
      ensures TableMatches(c, "")
    {
      ContainsEmpty(Lower(c.name));
    }
    FilterKeepsAll(cs, c => TableMatches(c, ""));
  }

  /** The search box ignores the case of the term. */
  lemma FilterIgnoresTermCase(cs: seq<Customer>, term: string)
    ensures FilterCustomers(cs, Lower(term)) == FilterCustomers(cs, term)
  {
    LowerIdempotent(term);
    FilterCongruent(cs, c => TableMatches(c, Lower(term)), c => TableMatches(c, term));
  }

  /** Everything the service's search would return for a term is shown by the
      table filter for the same term. */
  lemma SearchWithinTableFilter(cs: seq<Customer>, term: string)
    ensures forall c :: c in Filter(cs, c => SearchMatches(c, term)) ==> c in FilterCustomers(cs, term)
  {
  }

  /** The add form passes validation: neither the name nor the e-mail is
      empty after `trim`. */
  predicate FormComplete(f: CustomerForm)
  {
    !IsBlank(f.name) && !IsBlank(f.email)
  }

  /** Prefixing a message that already carries the prefix writes it twice. */
  lemma DoublePrefix(prefix: string, message: string)
    requires StartsWith(message, prefix)
    ensures StartsWith(prefix + message, prefix + prefix)
  {
    assert (prefix + message)[..|prefix + prefix|] == prefix + message[..|prefix|];
  }

  /** The state of the customer table. */
  class CustomerTable {
    var customers: seq<Customer>
    var loading: bool
    var error: Option<string>
    var searchTerm: string
    var isAddingCustomer: bool
    var editingCustomer: Option<Customer>
    var newCustomer: CustomerForm

    /** The initial state, before the first load. */
    constructor()
      ensures customers == [] && !loading && error.None? && searchTerm == ""
      ensures !isAddingCustomer && editingCustomer.None? && newCustomer == EmptyForm
    {
      customers := [];
      loading := false;
      error := None;
      searchTerm := "";
      isAddingCustomer := false;
      editingCustomer := None;
      newCustomer := EmptyForm;
    }

    /** `filteredCustomers`: the customers the table shows. */
    function FilteredCustomers(): (r: seq<Customer>)
      reads this
      ensures forall c :: c in r <==> c in customers && TableMatches(c, searchTerm)
      ensures forall c :: multiset(r)[c] == if TableMatches(c, searchTerm) then multiset(customers)[c] else 0
      ensures IsSubsequence(r, customers)
    {
      FilterCustomers(customers, searchTerm)
    }

    /** `loadCustomers`: the fetched list replaces the old one; on failure the
        old list stays and the error banner shows the message. */
    method LoadCustomers(probe: HttpReply<()>, list: HttpReply<seq<Record>>)
      modifies this`customers, this`loading, this`error
      ensures GetCustomers(probe, list).Success? ==>
        customers == GetCustomers(probe, list).value && error.None?
      ensures GetCustomers(probe, list).Failure? ==>
        customers == old(customers) && error == Some(GetCustomers(probe, list).error)
      ensures !loading
    {
      loading := true;
      error := None;
      var r := GetCustomers(probe, list);
      if r.Success? {
        customers := r.value;
      } else {
        error := Some(r.error);
      }
      loading := false;
    }

    /** `handleAddCustomer`: refused without a call when the name or e-mail is
        blank; otherwise the created customer is appended and the form reset
        and closed, or the error is shown with the prefix written twice.
        `sent` is the field map sent to the service, if any. */
    method HandleAddCustomer(reply: HttpReply<Record>) returns (sent: Option<map<string, string>>)
      modifies this`customers, this`loading, this`error, this`newCustomer, this`isAddingCustomer
      ensures !FormComplete(old(newCustomer)) ==>
        sent.None? &&
        customers == old(customers) && loading == old(loading) && error == old(error) &&
        isAddingCustomer == old(isAddingCustomer) && newCustomer == old(newCustomer)
      ensures FormComplete(old(newCustomer)) ==>
        sent == Some(Fields(Create, FormInput(old(newCustomer)))) && !loading
      ensures FormComplete(old(newCustomer)) && Ok(reply) ==>
        customers == old(customers) + [WrittenCustomer(reply.body)] &&
        newCustomer == EmptyForm && !isAddingCustomer && error == old(error)
      ensures FormComplete(old(newCustomer)) && !Ok(reply) ==>
        customers == old(customers) && newCustomer == old(newCustomer) &&
        isAddingCustomer == old(isAddingCustomer) &&
        error == Some(CreatePrefix + WriteOutcome(CreatePrefix, reply).error) &&
        StartsWith(error.value, CreatePrefix + CreatePrefix)
    {
      if Trim(newCustomer.name) == "" || Trim(newCustomer.email) == "" {
        sent := None;
        return;
      }
      loading := true;
      var fields, r := CreateCustomer(FormInput(newCustomer), reply);
      sent := Some(fields);
      if r.Success? {
        customers := customers + [r.value];
        newCustomer := EmptyForm;
        isAddingCustomer := false;
      } else {
        DoublePrefix(CreatePrefix, r.error);
        error := Some(CreatePrefix + r.error);
      }
      loading := false;
    }

    /** `handleEditCustomer`: every entry with the edited customer's id is
        replaced by the updated customer and editing ends, or the error is
        shown with the prefix written twice. `sent` is the field map sent. */
    method HandleEditCustomer(customer: Customer, reply: HttpReply<Record>) returns (sent: map<string, string>)
      modifies this`customers, this`loading, this`error, this`editingCustomer
      ensures sent == Fields(Update, CustomerAsInput(customer))
      ensures Ok(reply) ==>
        customers == ReplaceById(old(customers), customer.id, WrittenCustomer(reply.body)) &&
        editingCustomer.None? && error == old(error)
      ensures !Ok(reply) ==>
        customers == old(customers) && editingCustomer == old(editingCustomer) &&
        error == Some(UpdatePrefix + WriteOutcome(UpdatePrefix, reply).error) &&
        StartsWith(error.value, UpdatePrefix + UpdatePrefix)
      ensures !loading
    {
      loading := true;
      var r;
      sent, r := UpdateCustomer(CustomerAsInput(customer), reply);
      if r.Success? {
        customers := ReplaceById(customers, customer.id, r.value);
        editingCustomer := None;
      } else {
        DoublePrefix(UpdatePrefix, r.error);
        error := Some(UpdatePrefix + r.error);
      }
      loading := false;
    }

    /** `handleDeleteCustomer`: nothing happens unless the user confirmed; then
        the customers with that id are removed, or the error is shown with the
        prefix written twice. `called` tells whether the service was called. */
    method HandleDeleteCustomer(id: string, confirmed: bool, reply: HttpReply<()>) returns (called: bool)
      modifies this`customers, this`loading, this`error
      ensures called == confirmed
      ensures !confirmed ==> customers == old(customers) && loading == old(loading) && error == old(error)
      ensures confirmed && Ok(reply) ==>
        customers == RemoveById(old(customers), id) && error == old(error) && !loading
      ensures confirmed && !Ok(reply) ==>
        customers == old(customers) && !loading &&
        error == Some(DeletePrefix + DeleteCustomer(reply).error) &&
        StartsWith(error.value, DeletePrefix + DeletePrefix)
    {
      if !confirmed {
        return false;
      }
      called := true;
      loading := true;
      var r := DeleteCustomer(reply);
      if r.Success? {
        customers := RemoveById(customers, id);
      } else {
        DoublePrefix(DeletePrefix, r.error);
        error := Some(DeletePrefix + r.error);
      }
      loading := false;
    }

    /** The "Add Customer" buttons open the form. */
    method OpenAddForm()
      modifies this`isAddingCustomer
      ensures isAddingCustomer
    {
      isAddingCustomer := true;
    }

    /** The form's "Cancel" closes it, keeping what was typed. */
    method CancelAddForm()
      modifies this`isAddingCustomer
      ensures !isAddingCustomer
    {
      isAddingCustomer := false;
    }

    /** The row's edit button starts editing a copy of the customer. */
    method BeginEdit(customer: Customer)
      modifies this`editingCustomer
      ensures editingCustomer == Some(customer)
    {
      editingCustomer := Some(customer);
    }

    /** The row's "Cancel" ends editing without saving. */
    method CancelEdit()
      modifies this`editingCustomer
      ensures editingCustomer.None?
    {
      editingCustomer := None;
    }

    /** The banner's dismiss button clears the error. */
    method DismissError()
      modifies this`error
      ensures error.None?
    {
      error := None;
    }

    /** Typing in the search box. */
    method SetSearchTerm(term: string)
      modifies this`searchTerm
      ensures searchTerm == term
    {
      searchTerm := term;
    }
  }
}
