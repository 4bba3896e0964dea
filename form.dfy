/** The five editable fields of the customer form. */
module Form {

  /** The keys the error map can hold: one per input of the form. */
  datatype Field = Name | Username | Email | Phone | Balance

  const ALL_FIELDS: set<Field> := {Name, Username, Email, Phone, Balance}

  /** The draft values bound to the five inputs; every one is a string,
      the balance included, until the backend sees it. */
  datatype Draft = Draft(name: string, username: string, email: string, phone: string, balance: string)
  {
    /** The value of one input. */
    function Get(f: Field): string
    {
      match f
      case Name => name
      case Username => username
      case Email => email
      case Phone => phone
      case Balance => balance
    }

    /** The draft after the input `f` has been set to `v`, as an `onChange` handler does. */
    function Set(f: Field, v: string): (d: Draft)
      ensures d.Get(f) == v
      ensures forall g: Field :: g != f ==> d.Get(g) == Get(g)
    {
      match f
      case Name => this.(name := v)
      case Username => this.(username := v)
      case Email => this.(email := v)
      case Phone => this.(phone := v)
      case Balance => this.(balance := v)
    }
  }

  /** The form as it starts out and as every successful submit leaves it. */
  const EMPTY_DRAFT: Draft := Draft("", "", "", "", "")

  lemma EveryFieldListed(f: Field)
    ensures f in ALL_FIELDS
  {
  }

  lemma FiveFields()
    ensures |ALL_FIELDS| == 5
  {
    assert ALL_FIELDS == {Name} + {Username} + {Email} + {Phone} + {Balance};
  }

  lemma EmptyDraftIsEmpty(f: Field)
    ensures EMPTY_DRAFT.Get(f) == ""
  {
  }
}
