/**
 * The customer's profile: the name shown in the header, and `ensureProfile`,
 * which creates the `profiles` row on first sign-in from the account's
 * metadata and the signup draft kept in local storage.
 *
 * Missing or null texts are "" throughout, which is how the source's `||`
 * fallbacks treat them.
 */
module Profile {
  import opened Wrappers
  import opened Text

  const DefaultLocal := "User"
  const CustomerRole := "Customer"

  /** The capitalised local part of an e-mail address, or of "User" when it has none. */
  function LocalName(email: string): (r: string)
    ensures r != [] && '@' !in r
  {
    var local := Split(email, '@')[0];
    var l := if local == [] then DefaultLocal else local;
    [UpperChar(l[0])] + l[1..]
  }

  /**
   * `displayNameFrom(profile, user)`: the trimmed profile name, else the trimmed
   * metadata first name, else the e-mail's local part with its first letter
   * upper-cased.
   */
  function DisplayNameFrom(profileName: string, firstName: string, email: string): (r: string)
    ensures profileName != [] ==> r == Trim(profileName)
    ensures profileName == [] && firstName != [] ==> r == Trim(firstName)
    ensures profileName == [] && firstName == [] ==> r == LocalName(email)
    ensures profileName != [] || firstName != [] ==> IsTrimmed(r) && |r| <= |profileName| + |firstName|
    ensures profileName == [] && firstName == [] ==> r != [] && '@' !in r
  {
    var first := if profileName != [] then profileName else firstName;
    if first != [] then Trim(first) else LocalName(email)
  }

  /** With no name on record, `name@host` shows as `Name`: the first letter raised, the rest kept, nothing from the host. */
  lemma DisplayNameOfEmail(name: string, host: string)
    requires name != [] && '@' !in name
    ensures DisplayNameFrom([], [], name + "@" + host) == [UpperChar(name[0])] + name[1..]
  {
    SplitFirstPiece(name, host, '@');
    assert name + "@" + host == name + ['@'] + host;
  }

  /** An address with nothing before the `@`, or no address at all, shows as "User". */
  lemma DisplayNameWithoutLocal(host: string)
    ensures DisplayNameFrom([], [], "@" + host) == DefaultLocal
    ensures DisplayNameFrom([], [], []) == DefaultLocal
  {
    SplitFirstPiece([], host, '@');
    assert [] + ['@'] + host == "@" + host;
  }

  /** A name that is only spaces is shown as an empty name: it is present, so no fallback applies. */
  lemma BlankNameShowsEmpty(profileName: string, firstName: string, email: string)
    requires profileName != [] && AllSpace(profileName)
    ensures DisplayNameFrom(profileName, firstName, email) == []
  {
  }

  /** The five contact fields a profile row and the signup draft share. */
  datatype Contact = Contact(name: string, middleName: string, lastName: string, phone: string, address: string)

  const NoContact := Contact("", "", "", "", "")

  /** A row of `profiles`. */
  datatype ProfileRow = ProfileRow(contact: Contact, role: string)

  /** `a || b` on texts. */
  function Or(a: string, b: string): string {
    if a != [] then a else b
  }

  /** The insert payload's contact fields: the metadata's, else the draft's, else "". */
  function Payload(meta: Contact, draft: Contact): Contact {
    Contact(Or(meta.name, draft.name), Or(meta.middleName, draft.middleName), Or(meta.lastName, draft.lastName),
      Or(meta.phone, draft.phone), Or(meta.address, draft.address))
  }

  /** Each payload field comes from the metadata when it has one, else from the draft, and is empty only when both are. */
  lemma PayloadPrefersMetadata(meta: Contact, draft: Contact)
    ensures meta.name != [] ==> Payload(meta, draft).name == meta.name
    ensures meta.name == [] ==> Payload(meta, draft).name == draft.name
    ensures Payload(meta, draft).phone == [] <==> meta.phone == [] && draft.phone == []
    ensures Payload(meta, NoContact) == meta
    ensures Payload(NoContact, draft) == draft
  {
  }

  /** The signup draft as read back: a missing draft reads as all-empty. */
  function DraftContact(d: Option<Contact>): Contact {
    if d.Some? then d.value else NoContact
  }

  class ProfileStore {
    /** The `profiles` table, by user id. */
    var rows: map<string, ProfileRow>
    /** The `signupDraft` local-storage entry. */
    var draft: Option<Contact>

    constructor (table: map<string, ProfileRow>, saved: Option<Contact>)
      ensures rows == table && draft == saved
    {
      rows := table;
      draft := saved;
    }

    /** The insert of a new row; a row that exists already fails on its key. */
    method InsertRow(user: string, row: ProfileRow, insertFails: bool) returns (duplicate: bool, ok: bool)
      modifies this`rows
      ensures duplicate <==> user in old(rows)
      ensures ok <==> !duplicate && !insertFails
      ensures rows == if ok then old(rows)[user := row] else old(rows)
    {
      duplicate := user in rows;
      ok := !duplicate && !insertFails;
      if ok {
        rows := rows[user := row];
      }
    }

    /** The update of the five contact fields of an existing row; its role is kept. */
    method UpdateContact(user: string, c: Contact, updateFails: bool) returns (ok: bool)
      requires user in rows
      modifies this`rows
      ensures ok <==> !updateFails
      ensures rows == if ok then old(rows)[user := old(rows)[user].(contact := c)] else old(rows)
    {
      ok := !updateFails;
      if ok {
        rows := rows[user := rows[user].(contact := c)];
      }
    }

    /**
     * `ensureProfile(supabase, user)`: a row the read finds is returned as it is;
     * otherwise a Customer row built from the metadata and the draft is inserted,
     * and on a duplicate key only its contact fields are updated. The result is
     * the payload when the insert or the update succeeded and `None` otherwise,
     * and the draft is removed whenever no row was found.
     */
    method EnsureProfile(user: string, meta: Contact, readFails: bool, insertFails: bool, updateFails: bool)
      returns (p: Option<ProfileRow>)
      modifies this
      ensures !readFails && user in old(rows) ==>
        p == Some(old(rows)[user]) && rows == old(rows) && draft == old(draft)
      ensures readFails || user !in old(rows) ==>
        var payload := ProfileRow(Payload(meta, DraftContact(old(draft))), CustomerRole);
        && draft == None
        && (user !in old(rows) ==>
              && (p.Some? <==> !insertFails)
              && rows == (if insertFails then old(rows) else old(rows)[user := payload]))
        && (user in old(rows) ==>
              && (p.Some? <==> !updateFails)
              && rows == (if updateFails then old(rows)
                          else old(rows)[user := old(rows)[user].(contact := payload.contact)]))
        && (p.Some? ==> p == Some(payload))
      ensures user in old(rows) ==> user in rows && rows[user].role == old(rows)[user].role
    {
      if !readFails && user in rows {
        p := Some(rows[user]);
        return;
      }
      var payload := ProfileRow(Payload(meta, DraftContact(draft)), CustomerRole);
      var duplicate, ok := InsertRow(user, payload, insertFails);
      p := None;
      if duplicate {
        var updated := UpdateContact(user, payload.contact, updateFails);
        if updated {
          p := Some(payload);
        }
      } else if ok {
        p := Some(payload);
      }
      draft := None;
    }
  }
}
