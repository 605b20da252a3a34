/** The Secret in the daemon's own namespace that holds its credential for one cluster: what
    is read out of it, and the read-merge-update that puts a new credential in. */
module Credentials {
  import opened Text
  import opened Api
  import opened Config

  datatype CredKey = TokenKey | CAKey | ExpiresAtKey | OtherCredKey(name: string)

  type Data = map<CredKey, string>

  datatype Creds = Creds(token: string, ca: string, expiresAt: int)

  datatype ReadResult = Found(creds: Creds) | NotFound

  /** RFC 3339 section 5.6 date-times as an encoding with a partial inverse. */
  function FormatTime(t: nat): string { Decimal(t) }

  function ParseTime(raw: string): Option<int> {
    if raw != "" && AllDigits(raw) then Some(Number(raw)) else None
  }

  function Value(data: Data, key: CredKey): string {
    if key in data then TrimSpace(data[key]) else ""
  }

  /** An expiry that is absent or does not parse is left at zero, which means unknown. */
  function RecordedExpiry(data: Data): int {
    match ParseTime(Value(data, ExpiresAtKey))
    case Some(t) => t
    case None => 0
  }

  function ReadCredentials(secret: Option<Data>): ReadResult {
    match secret
    case None => NotFound
    case Some(data) =>
      if Value(data, TokenKey) == "" || Value(data, CAKey) == "" then NotFound
      else Found(Creds(Value(data, TokenKey), Value(data, CAKey), RecordedExpiry(data)))
  }

  function CredentialData(creds: Creds): Data {
    map[TokenKey := creds.token, CAKey := creds.ca]
    + if creds.expiresAt > 0 then map[ExpiresAtKey := FormatTime(creds.expiresAt)] else map[]
  }

  /** The managed keys over whatever else the Secret holds. */
  function Merged(base: Option<Data>, desired: Data): Data {
    match base
    case None => desired
    case Some(data) => data + desired
  }

  predicate IsBlank(text: string) { TrimSpace(text) == "" }

  predicate Trimmed(text: string) { TrimSpace(text) == text }

  lemma {:induction false} TrimmedDigits(s: string)
    requires AllDigits(s)
    ensures TrimSpace(s) == s
  {
  }

  /** What the deadline reads as after the merge: its own if there is one, and otherwise whatever
      could be read from what was there. */
  function ExpiryAfter(base: Option<Data>, creds: Creds): int {
    if creds.expiresAt > 0 then creds.expiresAt else if base.Some? then RecordedExpiry(base.value) else 0
  }

  /** What is stored reads back trimmed, or as nothing at all if the token or the CA is blank; and
      one whose expiry is unknown keeps the expiry of the credential it replaced, for the update
      merges keys and never removes one. So it reads back as it was stored exactly if both texts
      were trimmed and, without an expiry, the replaced one had none that could be read. */
  lemma ReadsBackExactly(base: Option<Data>, creds: Creds)
    ensures var read := ReadCredentials(Some(Merged(base, CredentialData(creds))));
      && (read.Found? <==> !IsBlank(creds.token) && !IsBlank(creds.ca))
      && (read.Found? ==> read.creds == Creds(TrimSpace(creds.token), TrimSpace(creds.ca), ExpiryAfter(base, creds)))
      && (read == Found(creds) <==>
            && !IsBlank(creds.token) && Trimmed(creds.token) && !IsBlank(creds.ca) && Trimmed(creds.ca)
            && (creds.expiresAt > 0 || (creds.expiresAt == 0 && (base.None? || RecordedExpiry(base.value) == 0))))
  {
    var data := Merged(base, CredentialData(creds));
    assert Value(data, TokenKey) == TrimSpace(creds.token) && Value(data, CAKey) == TrimSpace(creds.ca);
    if creds.expiresAt > 0 {
      DecimalIsItsNumber(creds.expiresAt);
      TrimmedDigits(Decimal(creds.expiresAt));
      assert RecordedExpiry(data) == creds.expiresAt;
    } else if base.Some? {
      assert ExpiresAtKey !in CredentialData(creds);
      assert RecordedExpiry(data) == RecordedExpiry(base.value);
    } else {
      assert ExpiresAtKey !in data;
    }
  }

  /** A CA as a cluster hands it out, with the newline its last line ends in, does not: it is
      stored as it came and read back without. */
  lemma FinalNewlineIsLost(base: Option<Data>, creds: Creds)
    requires !IsBlank(creds.token) && !IsBlank(creds.ca) && creds.ca[|creds.ca| - 1] == '\n'
    ensures var read := ReadCredentials(Some(Merged(base, CredentialData(creds))));
      read.Found? && read.creds.ca != creds.ca && Trimmed(read.creds.ca)
  {
    ReadsBackExactly(base, creds);
    TrimIdempotent(creds.ca);
    EndsTrimmed(creds.ca);
  }

  lemma {:induction false} EndsTrimmed(s: string)
    ensures |TrimSpace(s)| <= |s|
    ensures s != "" && IsSpace(s[|s| - 1]) ==> TrimSpace(s) != s
    ensures TrimSpace(s) != "" ==> !IsSpace(TrimSpace(s)[|TrimSpace(s)| - 1])
    decreases |s|
  {
    if s != "" && IsSpace(s[0]) {
      EndsTrimmed(s[1..]);
    } else if s != "" && IsSpace(s[|s| - 1]) {
      EndsTrimmed(s[..|s| - 1]);
    }
  }

  lemma {:induction false} TrimIdempotent(s: string)
    ensures TrimSpace(TrimSpace(s)) == TrimSpace(s)
    decreases |s|
  {
    if s != "" && IsSpace(s[0]) {
      TrimIdempotent(s[1..]);
    } else if s != "" && IsSpace(s[|s| - 1]) {
      TrimIdempotent(s[..|s| - 1]);
    }
  }

  // ---- The Secret ------------------------------------------------------------------------------

  datatype CredentialSecret = CredentialSecret(labels: map<string, string>, annotations: map<string, string>, data: Data)

  /** What an update makes of the object there is, or a create of none. */
  function MergedSecret(base: Option<CredentialSecret>, desired: CredentialSecret): CredentialSecret {
    match base
    case None => desired
    case Some(o) => CredentialSecret(o.labels + desired.labels, o.annotations + desired.annotations, Merged(Some(o.data), desired.data))
  }

  function DataOf(o: Option<CredentialSecret>): Option<Data> { if o.Some? then Some(o.value.data) else None }

  ghost predicate Kept<K(!new)>(base: map<K, string>, desired: map<K, string>, after: map<K, string>) {
    && (forall k :: k in desired ==> k in after && after[k] == desired[k])
    && (forall k :: k !in desired ==> (k in after <==> k in base) && (k in base ==> after[k] == base[k]))
  }

  /** Labels, annotations and keys this tool does not set are left untouched, and of the data it
      sets three keys at most. */
  lemma MergeKeepsTheRest(base: CredentialSecret, labels: map<string, string>, annotations: map<string, string>, creds: Creds)
    ensures var desired := CredentialSecret(labels, annotations, CredentialData(creds));
      var after := MergedSecret(Some(base), desired);
      && Kept(base.labels, labels, after.labels) && Kept(base.annotations, annotations, after.annotations)
      && Kept(base.data, desired.data, after.data) && desired.data.Keys <= {TokenKey, CAKey, ExpiresAtKey}
  {
  }

  // ---- UpsertSecret -----------------------------------------------------------------------

  /** How the API server answers one call: it does as asked, it refuses, or it does as asked
      and the answer is lost on the way back. */
  datatype Reply = Done | Refused | Lost

  /** What another writer leaves behind between two of this tool's calls, if one writes. */
  type Rival = Option<Option<Data>>

  /** The same, of the whole object. */
  type Writer = Option<Option<CredentialSecret>>

  datatype Attempt = Attempt(beforeGet: Writer, get: Reply, beforeWrite: Writer, write: Reply)

  datatype Upserted = Stored | NotStored

  /** retry.DefaultRetry allows five attempts in all. */
  const MAX_ATTEMPTS := 5

  /** One write of this tool's: the Secret just before and just after. */
  datatype OwnWrite = OwnWrite(before: Option<CredentialSecret>, after: Option<CredentialSecret>)

  /** One Secret behind the API server, with optimistic concurrency. */
  class SecretStore {
    var secret: Option<CredentialSecret>
    var version: nat
    ghost var log: seq<OwnWrite>

    constructor (initial: Option<CredentialSecret>)
      ensures secret == initial && log == []
    {
      secret, version, log := initial, 0, [];
    }

    method Interfere(rival: Writer)
      modifies this
      ensures log == old(log) && version >= old(version)
      ensures version == old(version) ==> secret == old(secret)
      ensures rival.None? ==> secret == old(secret)
    {
      if rival.Some? {
        secret, version := rival.value, version + 1;
      }
    }

    /** Replaces the Secret if nobody has written since `read`; reports a conflict otherwise. */
    method Put(next: CredentialSecret, read: nat, reply: Reply) returns (conflict: bool, failed: bool)
      modifies this
      ensures conflict == (old(version) != read)
      ensures conflict || reply == Refused ==> secret == old(secret) && log == old(log) && version == old(version)
      ensures !conflict && reply != Refused ==>
        secret == Some(next) && log == old(log) + [OwnWrite(old(secret), Some(next))]
      ensures failed == (!conflict && reply != Done)
    {
      conflict, failed := version != read, false;
      if conflict {
        return;
      }
      failed := reply != Done;
      if reply != Refused {
        log := log + [OwnWrite(secret, Some(next))];
        secret, version := Some(next), version + 1;
      }
    }

    /** Creates or updates the Secret, trying again whenever somebody else wrote in between.
        Whatever happens at most one write lands, it lands on exactly the contents it was
        merged with, and success means it did. */
    method UpsertSecret(desired: CredentialSecret, script: seq<Attempt>) returns (outcome: Upserted)
      requires |script| == MAX_ATTEMPTS
      modifies this
      ensures log == old(log) || (|log| == |old(log)| + 1 && log[..|old(log)|] == old(log))
      ensures log != old(log) ==>
        var w := log[|old(log)|];
        w.after == Some(MergedSecret(w.before, desired)) && secret == w.after
      ensures outcome == Stored ==> log != old(log)
      ensures log != old(log) && outcome == NotStored ==> exists a :: a in script && a.write == Lost
    {
      outcome := NotStored;
      for i := 0 to MAX_ATTEMPTS
        invariant log == old(log) && outcome == NotStored
      {
        var attempt := script[i];
        Interfere(attempt.beforeGet);
        if attempt.get != Done {
          return NotStored;
        }
        var existing, read := secret, version;
        Interfere(attempt.beforeWrite);
        var conflict, failed := Put(MergedSecret(existing, desired), read, attempt.write);
        if !conflict {
          outcome := if failed then NotStored else Stored;
          return;
        }
      }
    }

    /** What the Secret holds. */
    function Contents(): Option<Data>
      reads this
    {
      DataOf(secret)
    }

    /** Success means the token can be read back, trimmed, if neither it nor the CA is blank; and
        with it exactly what was written, if that was trimmed and has an expiry. */
    method WriteCredentials(creds: Creds, labels: map<string, string>, script: seq<Attempt>) returns (outcome: Upserted)
      requires |script| == MAX_ATTEMPTS
      modifies this
      ensures outcome == Stored ==>
        && |log| == |old(log)| + 1 && log[..|old(log)|] == old(log)
        && secret == Some(MergedSecret(log[|old(log)|].before, CredentialSecret(labels, map[], CredentialData(creds))))
        && var read := ReadCredentials(Contents());
           && (read.Found? <==> !IsBlank(creds.token) && !IsBlank(creds.ca))
           && (read.Found? ==> read.creds == Creds(TrimSpace(creds.token), TrimSpace(creds.ca),
                                                   ExpiryAfter(DataOf(log[|old(log)|].before), creds)))
    {
      outcome := UpsertSecret(CredentialSecret(labels, map[], CredentialData(creds)), script);
      if outcome == Stored {
        ReadsBackExactly(DataOf(log[|old(log)|].before), creds);
      }
    }
  }
}
