/** The identity logic of HDFSFile: which user and group files are created
    and shown as, the default attributes of a file the server cannot stat,
    and the configuration with which the Hadoop FileSystem is obtained. The
    calls into the Hadoop user-information classes and the process
    properties are inputs. */
module Hdfs {
  import opened Wrappers
  import opened Commons
  import opened Reflection
  import opened HadoopWrapper

  /** The configuration key through which a user and group are imposed on
      a legacy Hadoop FileSystem. */
  const UGI_PROPERTY_NAME := "hadoop.job.ugi"
  /** The configuration key naming the superuser group. */
  const SUPERGROUP_PROPERTY := "dfs.permissions.supergroup"
  /** The group used when the configuration names none. */
  const DEFAULT_SUPERGROUP := "supergroup"

  /** The answer of a user-information call that may throw. */
  datatype Probe = Value(name: string) | Threw

  /** The process-wide defaults the static initialiser computes once. */
  datatype Identity = Identity(username: string, group: string)

  datatype Credentials = Credentials(login: string, password: string)

  /** The parts of a FileURL this logic reads. */
  datatype FileURL = FileURL(path: string, credentials: Option<Credentials>)

  /** The static initialiser's default user: the modern API's short user
      name when the legacy UnixUserGroupInformation class is absent, the
      legacy login's user name when it is present, and the OS user name
      when the chosen call throws. */
  function DefaultUsername(legacyClassAbsent: bool, currentUser: Probe, legacyLogin: Probe, osUserName: string): (u: string)
    ensures legacyClassAbsent && currentUser.Value? ==> u == currentUser.name
    ensures !legacyClassAbsent && legacyLogin.Value? ==> u == legacyLogin.name
    ensures legacyClassAbsent && currentUser.Threw? ==> u == osUserName
    ensures !legacyClassAbsent && legacyLogin.Threw? ==> u == osUserName
  {
    var chosen := if legacyClassAbsent then currentUser else legacyLogin;
    match chosen
    case Value(name) => name
    case Threw => osUserName
  }

  /** Only one of the two user-information APIs is ever consulted: the
      other one's answer cannot change the default user. */
  lemma DefaultUsernameConsultsOneApi(legacyClassAbsent: bool, c1: Probe, c2: Probe, l1: Probe, l2: Probe, os: string)
    ensures legacyClassAbsent ==> DefaultUsername(true, c1, l1, os) == DefaultUsername(true, c1, l2, os)
    ensures !legacyClassAbsent ==> DefaultUsername(false, c1, l1, os) == DefaultUsername(false, c2, l1, os)
  {
  }

  /** The default group: the configured superuser group, or "supergroup". */
  function DefaultGroup(configured: map<string, string>): (g: string)
    ensures SUPERGROUP_PROPERTY in configured ==> g == configured[SUPERGROUP_PROPERTY]
    ensures SUPERGROUP_PROPERTY !in configured ==> g == DEFAULT_SUPERGROUP
  {
    if SUPERGROUP_PROPERTY in configured then configured[SUPERGROUP_PROPERTY] else DEFAULT_SUPERGROUP
  }

  /** The static initialiser as a whole. */
  function StaticIdentity(legacyClassAbsent: bool, currentUser: Probe, legacyLogin: Probe, osUserName: string,
                          configured: map<string, string>): (id: Identity)
    ensures id.username == DefaultUsername(legacyClassAbsent, currentUser, legacyLogin, osUserName)
    ensures id.group == DefaultGroup(configured)
  {
    Identity(DefaultUsername(legacyClassAbsent, currentUser, legacyLogin, osUserName), DefaultGroup(configured))
  }

  /** getUsername: the URL's login when credentials are present and the
      login is not empty, the default user otherwise. */
  function GetUsername(url: FileURL, id: Identity): (u: string)
    ensures url.credentials.Some? && url.credentials.value.login != "" ==> u == url.credentials.value.login
    ensures url.credentials.None? || url.credentials.value.login == "" ==> u == id.username
  {
    if url.credentials.None? || url.credentials.value.login == "" then id.username else url.credentials.value.login
  }

  /** The user is never empty unless the default user is. */
  lemma GetUsernameNonEmpty(url: FileURL, id: Identity)
    requires id.username != ""
    ensures GetUsername(url, id) != ""
  {
  }

  /** The password never influences the user. */
  lemma PasswordIrrelevant(path: string, login: string, p1: string, p2: string, id: Identity)
    ensures GetUsername(FileURL(path, Some(Credentials(login, p1))), id)
         == GetUsername(FileURL(path, Some(Credentials(login, p2))), id)
  {
  }

  /** getGroup: always the default group, whatever the URL holds (reading
      a group from the URL is disabled in the source). */
  function GetGroup(url: FileURL, id: Identity): (g: string)
    ensures g == id.group
  {
    id.group
  }

  /** Two URLs always map to the same group. */
  lemma GroupIgnoresUrl(u1: FileURL, u2: FileURL, id: Identity)
    ensures GetGroup(u1, id) == GetGroup(u2, id)
  {
  }

  /** DEFAULT_PERMISSIONS: the umasked default permission as a Java short,
      widened to int and cut down to the nine permission bits. */
  function DefaultPermissions(umasked: bv16): (p: bv32)
  {
    (umasked as bv32) & FULL_PERMISSION_INT
  }

  /** The default permissions fit in octal 0777 and keep the low nine bits
      of the umasked value. */
  lemma DefaultPermissionsMasked(umasked: bv16)
    ensures WithinFullPermissions(DefaultPermissions(umasked))
    ensures DefaultPermissions(umasked) as bv16 == umasked & 0x1FF
  {
  }

  /** setDefaultFileAttributes: owner, group and permissions of the
      attributes handed in are overwritten; nothing else changes. */
  method SetDefaultFileAttributes(url: FileURL, id: Identity, umasked: bv16, atts: FileAttributes)
    modifies atts
    ensures atts.Snapshot() == old(atts.Snapshot()).(
      owner := GetUsername(url, id), group := GetGroup(url, id), permissions := DefaultPermissions(umasked))
  {
    atts.owner := GetUsername(url, id);
    atts.group := GetGroup(url, id);
    atts.permissions := DefaultPermissions(umasked);
  }

  /** getHadoopFileSystem: a fresh configuration whose UGI property is
      exactly [user, group] is handed to FileSystem.get for the URL's
      realm. The realm's textual form is an input. */
  method GetHadoopFileSystem(url: FileURL, id: Identity, realm: string, backend: Backend)
    returns (r: Result<FileSystem, Throwable>, ghost conf: map<string, seq<string>>)
    ensures conf == map[UGI_PROPERTY_NAME := [GetUsername(url, id), GetGroup(url, id)]]
    ensures backend.get(realm, conf).Threw? ==> r == Err(WrapInRuntime(backend.get(realm, conf).failure))
    ensures backend.get(realm, conf).Returned? ==>
      r.Ok? && fresh(r.value) && r.value.backend == backend && r.value.fileSystem == backend.get(realm, conf).value
  {
    var configuration := new Configuration();
    configuration.SetStrings(UGI_PROPERTY_NAME, [GetUsername(url, id), GetGroup(url, id)]);
    conf := configuration.properties;
    r := FileSystem.Get(backend, realm, configuration);
  }
}
