/** The configuration the program reads from its INI file, as typed values.
    Each datatype is one section of the file; option names follow the keys
    (`admin_base_dn` becomes `adminBaseDn`). */
module Settings {

  /** One entry of `gucs_to_set`: the variable, its value and the database it
      is scoped to (empty for every database). */
  datatype Guc = Guc(name: string, value: string, database: string)

  /** Section `[ldap]`. The ignore list is the raw comma-separated string. */
  datatype LdapSection = LdapSection(
    baseDn: string,
    filterString: string,
    adminBaseDn: string,
    adminFilterString: string,
    searchScope: string,
    usernameAttribute: string,
    ignoreUsers: string)

  /** Section `[postgres]` (the connection string is not modelled). */
  datatype PostgresSection = PostgresSection(ignoreLoginRoles: string)

  /** Section `[general]`. `gucsToSet` is the evaluated `gucs_to_set`
      dictionary in its iteration order; `connectionLimit == -1` means
      "no limit". */
  datatype GeneralSection = GeneralSection(
    addLdapUsersToPostgres: bool,
    removeLoginRolesFromPostgres: bool,
    superuser: bool,
    createdb: bool,
    createrole: bool,
    noinherit: bool,
    bypassrls: bool,
    connectionLimit: int,
    rolesToGrant: string,
    rolesToGrantWithAdmin: string,
    gucsToSet: seq<Guc>)

  datatype Config = Config(ldap: LdapSection, postgres: PostgresSection, general: GeneralSection)
}
