/** The CRUD component: its state, the handlers that change it, and the
    requests they send to the backend. Each backend call is run to
    completion: its outcome is a parameter of the handler that makes it. */
module Component {
  import opened Outcomes
  import opened Form
  import opened Validator
  import opened Records

  /** A request to the backend: `GET /read`, `POST /add`, `PUT /update/{id}`
      and `DELETE /delete/{id}`, with the body each one carries. */
  datatype Request = ReadAll | Add(fields: Draft) | Update(id: Id, record: Record) | Remove(id: Id)

  class CrudDb {
    var posts: seq<Record>
    var name: string
    var username: string
    var email: string
    var phone: string
    var balance: string
    var editingPost: Option<Record>
    var error: map<Field, string>
    /** JavaScript's `!(isNaN(v) || +v <= 0)` on the balance string. */
    const balanceIsPositive: string -> bool

    /** The five inputs as one draft. */
    function FormDraft(): Draft
      reads this
    {
      Draft(name, username, email, phone, balance)
    }

    /** The state the hooks start from: no records, an empty form, no edit
        under way and no errors. */
    constructor (balanceIsPositive: string -> bool)
      ensures posts == [] && FormDraft() == EMPTY_DRAFT
      ensures editingPost == None && error == map[]
      ensures this.balanceIsPositive == balanceIsPositive
    {
      posts := [];
      name, username, email, phone, balance := "", "", "", "", "";
      editingPost := None;
      error := map[];
      this.balanceIsPositive := balanceIsPositive;
    }

    /** The initial load: one `GET /read`; the list is replaced by the
        response, or kept when the request fails. */
    method LoadPosts(response: Outcome<seq<Record>>) returns (calls: seq<Request>)
      modifies this`posts
      ensures calls == [ReadAll]
      ensures posts == if response.Ok? then response.value else old(posts)
    {
      calls := [ReadAll];
      if response.Ok? {
        posts := response.value;
      }
    }

    /** An input's `onChange`: that one field takes the typed value; the
        error map, stale or not, is left as it is. */
    method SetField(f: Field, v: string)
      modifies this`name, this`username, this`email, this`phone, this`balance
      ensures FormDraft() == old(FormDraft()).Set(f, v)
    {
      match f
      case Name => name := v;
      case Username => username := v;
      case Email => email := v;
      case Phone => phone := v;
      case Balance => balance := v;
    }

    /** `validate`: builds the error map of the five fields, stores it, and
        reports whether it is empty. */
    method Validate() returns (ok: bool)
      modifies this`error
      ensures error == Errors(FormDraft(), balanceIsPositive)
      ensures ok <==> error == map[]
    {
      var newError := BuildErrors(FormDraft(), balanceIsPositive);
      error := newError;
      ok := |newError| == 0;
    }

    /** `clearFields`: all five inputs back to `""`. */
    method ClearFields()
      modifies this`name, this`username, this`email, this`phone, this`balance
      ensures FormDraft() == EMPTY_DRAFT
    {
      name := "";
      username := "";
      email := "";
      phone := "";
      balance := "";
    }

    /** `createPost`: validate; if that fails, stop with no request sent.
        Otherwise `POST /add` the five fields; on success append the returned
        record and clear the form, on failure change nothing more. */
    method CreatePost(response: Outcome<Record>) returns (calls: seq<Request>)
      modifies this`error, this`posts, this`name, this`username, this`email, this`phone, this`balance
      ensures error == Errors(old(FormDraft()), balanceIsPositive)
      ensures error != map[] ==> calls == [] && posts == old(posts) && FormDraft() == old(FormDraft())
      ensures error == map[] ==> calls == [Add(old(FormDraft()))]
      ensures error == map[] && response.Ok? ==>
        posts == Appended(old(posts), response.value) && FormDraft() == EMPTY_DRAFT
      ensures error == map[] && response.Err? ==> posts == old(posts) && FormDraft() == old(FormDraft())
    {
      var ok := Validate();
      if !ok {
        return [];
      }
      calls := [Add(FormDraft())];
      if response.Ok? {
        posts := Appended(posts, response.value);
        ClearFields();
      }
    }

    /** `updatePost(post)`: validate the five fields; if that fails, stop with
        no request sent. Otherwise `PUT /update/{post.id}` with `post`; once
        that succeeds, `GET /read` again, leave editing and clear the form,
        replacing the list only if the re-fetch succeeds. A failed PUT
        changes nothing more. */
    method UpdatePost(post: Record, putOk: bool, refetched: Outcome<seq<Record>>) returns (calls: seq<Request>)
      modifies this`error, this`posts, this`editingPost, this`name, this`username, this`email, this`phone, this`balance
      ensures error == Errors(old(FormDraft()), balanceIsPositive)
      ensures error != map[] ==>
        calls == [] && posts == old(posts) && FormDraft() == old(FormDraft()) && editingPost == old(editingPost)
      ensures error == map[] ==> calls == [Update(post.id, post)] + (if putOk then [ReadAll] else [])
      ensures error == map[] && putOk ==>
        editingPost == None && FormDraft() == EMPTY_DRAFT
        && posts == (if refetched.Ok? then refetched.value else old(posts))
      ensures error == map[] && !putOk ==>
        posts == old(posts) && FormDraft() == old(FormDraft()) && editingPost == old(editingPost)
    {
      var ok := Validate();
      if !ok {
        return [];
      }
      calls := [Update(post.id, post)];
      if putOk {
        calls := calls + [ReadAll];
        if refetched.Ok? {
          posts := refetched.value;
        }
        editingPost := None;
        ClearFields();
      }
    }

    /** `deletePost(id)`: `DELETE /delete/{id}`; on success drop every record
        with that id, on failure keep the list. */
    method DeletePost(id: Id, deleted: bool) returns (calls: seq<Request>)
      modifies this`posts
      ensures calls == [Remove(id)]
      ensures posts == if deleted then WithoutId(old(posts), id) else old(posts)
    {
      calls := [Remove(id)];
      if deleted {
        posts := WithoutId(posts, id);
      }
    }

    /** `handleEditClick(post)`: start editing `post` with its values in the form. */
    method HandleEditClick(post: Record)
      modifies this`editingPost, this`name, this`username, this`email, this`phone, this`balance
      ensures editingPost == Some(post) && FormDraft() == post.Fields()
    {
      editingPost := Some(post);
      name := post.name;
      username := post.username;
      email := post.email;
      phone := post.phone;
      balance := post.balance;
    }

    /** `handleSaveClick`: update the record being edited, with the form's
        five values laid over it, or create a new one when nothing is being
        edited. */
    method HandleSaveClick(created: Outcome<Record>, putOk: bool, refetched: Outcome<seq<Record>>)
      returns (calls: seq<Request>)
      modifies this`error, this`posts, this`editingPost, this`name, this`username, this`email, this`phone, this`balance
      ensures error == Errors(old(FormDraft()), balanceIsPositive)
      ensures error != map[] ==>
        calls == [] && posts == old(posts) && FormDraft() == old(FormDraft()) && editingPost == old(editingPost)
      ensures error == map[] && old(editingPost).None? ==>
        calls == [Add(old(FormDraft()))] && editingPost == None
        && (created.Ok? ==> posts == Appended(old(posts), created.value) && FormDraft() == EMPTY_DRAFT)
        && (created.Err? ==> posts == old(posts) && FormDraft() == old(FormDraft()))
      ensures error == map[] && old(editingPost).Some? ==>
        calls == [Update(old(editingPost).value.id, WithDraft(old(editingPost).value, old(FormDraft())))]
                 + (if putOk then [ReadAll] else [])
      ensures error == map[] && old(editingPost).Some? && putOk ==>
        editingPost == None && FormDraft() == EMPTY_DRAFT
        && posts == (if refetched.Ok? then refetched.value else old(posts))
      ensures error == map[] && old(editingPost).Some? && !putOk ==>
        posts == old(posts) && FormDraft() == old(FormDraft()) && editingPost == old(editingPost)
    {
      if editingPost.Some? {
        calls := UpdatePost(WithDraft(editingPost.value, FormDraft()), putOk, refetched);
      } else {
        calls := CreatePost(created);
      }
    }
  }

  /** Editing a record and saving it unchanged sends that very record, and a
      successful PUT ends the edit with an empty form. */
  method EditAndSave(isPositive: string -> bool, p: Record, refetched: Outcome<seq<Record>>)
    returns (calls: seq<Request>, editing: Option<Record>, form: Draft)
    requires Errors(p.Fields(), isPositive) == map[]
    ensures calls == [Update(p.id, p), ReadAll]
    ensures editing == None && form == EMPTY_DRAFT
  {
    var c := new CrudDb(isPositive);
    c.HandleEditClick(p);
    assert WithDraft(p, p.Fields()) == p;
    calls := c.HandleSaveClick(Err, true, refetched);
    editing, form := c.editingPost, c.FormDraft();
  }

  /** Typing a draft into the fresh form and saving it: a draft with any
      error sends nothing and keeps the list, a clean one is posted and the
      created record joins the list. */
  method TypeAndSave(isPositive: string -> bool, d: Draft, initial: seq<Record>, created: Record)
    returns (calls: seq<Request>, posts: seq<Record>, form: Draft)
    ensures calls == [] <==> !Acceptable(d, isPositive)
    ensures !Acceptable(d, isPositive) ==> posts == initial && form == d
    ensures Acceptable(d, isPositive) ==>
      calls == [Add(d)] && posts == initial + [created] && form == EMPTY_DRAFT
  {
    var c := new CrudDb(isPositive);
    var loaded := c.LoadPosts(Ok(initial));
    c.SetField(Name, d.name);
    c.SetField(Username, d.username);
    c.SetField(Email, d.email);
    c.SetField(Phone, d.phone);
    c.SetField(Balance, d.balance);
    assert c.FormDraft() == d;
    EmptyIffAcceptable(d, isPositive);
    calls := c.HandleSaveClick(Ok(created), false, Err);
    posts, form := c.posts, c.FormDraft();
  }

  /** Creating a record and then deleting it by its id leaves the list as
      deleting that id from the original list would. */
  method CreateThenDelete(isPositive: string -> bool, initial: seq<Record>, created: Record)
    returns (posts: seq<Record>)
    requires Acceptable(created.Fields(), isPositive)
    ensures posts == WithoutId(initial, created.id)
    ensures !HasId(posts, created.id)
  {
    var c := new CrudDb(isPositive);
    var loaded := c.LoadPosts(Ok(initial));
    c.SetField(Name, created.name);
    c.SetField(Username, created.username);
    c.SetField(Email, created.email);
    c.SetField(Phone, created.phone);
    c.SetField(Balance, created.balance);
    assert c.FormDraft() == created.Fields();
    EmptyIffAcceptable(created.Fields(), isPositive);
    var posted := c.CreatePost(Ok(created));
    var removed := c.DeletePost(created.id, true);
    DeleteAfterAppend(initial, created);
    WithoutIdRemovesAll(initial, created.id);
    posts := c.posts;
  }
}
