/** The records shared by the repository and the window (crates/contracts/src/connection.rs). */
module Contracts {
  import opened Wrappers
  import opened Text

  const DEFAULT_CONNECTION_PORT: nat := 22
  const DEFAULT_CONNECT_TIMEOUT_SECS: nat := 10
  const DEFAULT_KEEP_ALIVE_SECS: nat := 30

  datatype AuthMethod = Password | PrivateKey | KeyboardInteractive

  /** `port` is a u16 in the original; only its being zero is ever looked at. */
  datatype ConnectionConfig = ConnectionConfig(
    id: string,
    groupId: Option<string>,
    name: string,
    host: string,
    port: nat,
    username: string,
    notes: Option<string>,
    color: Option<string>,
    authMethod: AuthMethod,
    credentialRef: Option<string>,
    keyReferenceId: Option<string>)

  function NewConfig(id: string, name: string, host: string, username: string): ConnectionConfig {
    ConnectionConfig(id, None, name, host, DEFAULT_CONNECTION_PORT, username, None, None, Password, None, None)
  }

  datatype ValidationError =
    | MissingId | InvalidGroupReference | MissingName | MissingHost | InvalidPort | MissingUsername
    | InvalidColor | InvalidCredentialReference | InvalidKeyReference | MissingKeyReference
    | ConflictingAuthenticationReferences

  predicate IsHexDigit(c: char) {
    IsDigit(c) || 'a' <= c <= 'f' || 'A' <= c <= 'F'
  }

  predicate IsHexColor(s: string) {
    |s| == 7 && s[0] == '#' && forall i :: 1 <= i < 7 ==> IsHexDigit(s[i])
  }

  predicate BlankReference(reference: Option<string>) {
    reference.Some? && IsBlank(reference.value)
  }

  /** The first complaint, in the order the checks are made. */
  function Validate(c: ConnectionConfig): Option<ValidationError> {
    if IsBlank(c.id) then Some(MissingId)
    else if BlankReference(c.groupId) then Some(InvalidGroupReference)
    else if IsBlank(c.name) then Some(MissingName)
    else if IsBlank(c.host) then Some(MissingHost)
    else if c.port == 0 then Some(InvalidPort)
    else if IsBlank(c.username) then Some(MissingUsername)
    else if c.color.Some? && !IsHexColor(c.color.value) then Some(InvalidColor)
    else if BlankReference(c.credentialRef) then Some(InvalidCredentialReference)
    else if BlankReference(c.keyReferenceId) then Some(InvalidKeyReference)
    else match c.authMethod
         case Password => if c.keyReferenceId.Some? then Some(ConflictingAuthenticationReferences) else None
         case PrivateKey =>
           if c.keyReferenceId.None? then Some(MissingKeyReference)
           else if c.credentialRef.Some? then Some(ConflictingAuthenticationReferences)
           else None
         case KeyboardInteractive =>
           if c.credentialRef.Some? || c.keyReferenceId.Some? then Some(ConflictingAuthenticationReferences) else None
  }

  predicate IsValid(c: ConnectionConfig) {
    Validate(c).None?
  }

  /** The order in which complaints are looked for. */
  function Position(e: ValidationError): nat {
    match e
    case MissingId => 0
    case InvalidGroupReference => 1
    case MissingName => 2
    case MissingHost => 3
    case InvalidPort => 4
    case MissingUsername => 5
    case InvalidColor => 6
    case InvalidCredentialReference => 7
    case InvalidKeyReference => 8
    case MissingKeyReference => 9
    case ConflictingAuthenticationReferences => 10
  }

  predicate IsColor(s: string) {
    && |s| == 7 && s[0] == '#'
    && forall i :: 1 <= i < 7 ==> '0' <= s[i] <= '9' || 'a' <= s[i] <= 'f' || 'A' <= s[i] <= 'F'
  }

  /** What each complaint is about. A password login has no key, a private key login has one and no credential, a
      keyboard-interactive login has neither. */
  predicate Deserves(c: ConnectionConfig, e: ValidationError) {
    match e
    case MissingId => IsBlank(c.id)
    case InvalidGroupReference => c.groupId != None && IsBlank(c.groupId.value)
    case MissingName => IsBlank(c.name)
    case MissingHost => IsBlank(c.host)
    case InvalidPort => c.port == 0
    case MissingUsername => IsBlank(c.username)
    case InvalidColor => c.color != None && !IsColor(c.color.value)
    case InvalidCredentialReference => c.credentialRef != None && IsBlank(c.credentialRef.value)
    case InvalidKeyReference => c.keyReferenceId != None && IsBlank(c.keyReferenceId.value)
    case MissingKeyReference => c.authMethod == PrivateKey && c.keyReferenceId == None
    case ConflictingAuthenticationReferences =>
      || (c.authMethod != PrivateKey && c.keyReferenceId != None)
      || (c.authMethod != Password && c.credentialRef != None)
  }

  lemma ColorsAgree(s: string)
    ensures IsHexColor(s) <==> IsColor(s)
  {
  }

  lemma FirstComplaint(c: ConnectionConfig, other: ValidationError)
    ensures Validate(c).Some? ==> Deserves(c, Validate(c).value)
    ensures Deserves(c, other) ==> Validate(c).Some? && Position(Validate(c).value) <= Position(other)
  {
    if c.color.Some? {
      ColorsAgree(c.color.value);
    }
  }

  /** A configuration is valid if it deserves no complaint, and otherwise gets the first one it deserves. */
  lemma ValidateReportsFirst(c: ConnectionConfig, e: ValidationError)
    ensures Validate(c) == Some(e) <==>
              Deserves(c, e) && forall other :: Deserves(c, other) ==> Position(e) <= Position(other)
    ensures IsValid(c) ==> !Deserves(c, e)
  {
    forall other ensures Deserves(c, other) ==> Validate(c).Some? && Position(Validate(c).value) <= Position(other) {
      FirstComplaint(c, other);
    }
    FirstComplaint(c, e);
    if Validate(c).Some? {
      OnePosition(Validate(c).value, e);
    }
  }

  lemma OnePosition(a: ValidationError, b: ValidationError)
    ensures Position(a) == Position(b) ==> a == b
  {
  }

  datatype Settings = Settings(connectTimeoutSecs: nat, keepAliveSecs: nat)

  datatype Override = Override(connectTimeoutSecs: Option<nat>, keepAliveSecs: Option<nat>)

  datatype Layers = Layers(global: Option<Override>, group: Option<Override>, connection: Option<Override>)

  const NO_OVERRIDE := Override(None, None)

  function OverrideOf(layer: Option<Override>): Override {
    if layer.Some? then layer.value else NO_OVERRIDE
  }

  /** The narrowest scope that says anything about a field decides it. */
  function Narrowest(connection: Option<nat>, group: Option<nat>, global: Option<nat>, default: nat): nat {
    if connection.Some? then connection.value
    else if group.Some? then group.value
    else if global.Some? then global.value
    else default
  }

  /** The connection's own value if there is one, else its group's, else the one for all
      connections, else the default. */
  predicate FromNarrowest(value: nat, connection: Option<nat>, group: Option<nat>, global: Option<nat>, default: nat) {
    && (connection.Some? ==> value == connection.value)
    && (connection.None? && group.Some? ==> value == group.value)
    && (connection.None? && group.None? && global.Some? ==> value == global.value)
    && (connection.None? && group.None? && global.None? ==> value == default)
  }

  /** The connect timeout that a layer gives, if there is the layer and it gives one. */
  function TimeoutIn(layer: Option<Override>): Option<nat> {
    match layer
    case Some(o) => o.connectTimeoutSecs
    case None => None
  }

  /** The same for the interval between keep-alive messages. */
  function KeepAliveIn(layer: Option<Override>): Option<nat> {
    match layer
    case Some(o) => o.keepAliveSecs
    case None => None
  }

  lemma NarrowestDecides(connection: Option<nat>, group: Option<nat>, global: Option<nat>, default: nat)
    ensures FromNarrowest(Narrowest(connection, group, global, default), connection, group, global, default)
  {
  }

  function Resolved(l: Layers): Settings {
    var connection, group, global := OverrideOf(l.connection), OverrideOf(l.group), OverrideOf(l.global);
    Settings(
      Narrowest(connection.connectTimeoutSecs, group.connectTimeoutSecs, global.connectTimeoutSecs,
        DEFAULT_CONNECT_TIMEOUT_SECS),
      Narrowest(connection.keepAliveSecs, group.keepAliveSecs, global.keepAliveSecs, DEFAULT_KEEP_ALIVE_SECS))
  }

  /** The layers are laid over the defaults from the widest to the narrowest. */
  method Resolve(l: Layers) returns (resolved: Settings)
    ensures resolved == Resolved(l)
    ensures FromNarrowest(resolved.connectTimeoutSecs,
              TimeoutIn(l.connection), TimeoutIn(l.group), TimeoutIn(l.global), 10)
    ensures FromNarrowest(resolved.keepAliveSecs,
              KeepAliveIn(l.connection), KeepAliveIn(l.group), KeepAliveIn(l.global), 30)
  {
    resolved := Settings(DEFAULT_CONNECT_TIMEOUT_SECS, DEFAULT_KEEP_ALIVE_SECS);
    var layers := [l.global, l.group, l.connection];
    for i := 0 to 3
      invariant resolved == Resolved(Layers(
                  if i > 0 then l.global else None,
                  if i > 1 then l.group else None,
                  if i > 2 then l.connection else None))
    {
      if layers[i].Some? {
        var layer := layers[i].value;
        if layer.connectTimeoutSecs.Some? {
          resolved := resolved.(connectTimeoutSecs := layer.connectTimeoutSecs.value);
        }
        if layer.keepAliveSecs.Some? {
          resolved := resolved.(keepAliveSecs := layer.keepAliveSecs.value);
        }
      }
    }
  }
}
