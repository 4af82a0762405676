/** The object types of an account, as far as grants tell them apart. */
module ObjectTypes {

  datatype ObjectType =
    | ACCOUNT | ACCOUNT_PARAMETER | AGGREGATION_POLICY | ALERT | APPLICATION_ROLE | AUTHENTICATION_POLICY
    | BACKUP_POLICY | BACKUP_SET | CHECK_CONSTRAINT | CLONE_TABLE | CORTEX_SEARCH_SERVICE | DATABASE | DATABASE_ROLE
    | DATASET | DYNAMIC_TABLE | EVENT_TABLE | EXTERNAL_ACCESS_INTEGRATION | EXTERNAL_FUNCTION | EXTERNAL_TABLE
    | FILE_FORMAT | FOREIGN_KEY | FUNCTION | HYBRID_TABLE | ICEBERG_TABLE | INTEGRATION | JOIN_POLICY
    | MASKING_POLICY | MATERIALIZED_VIEW | NETWORK_POLICY | NETWORK_RULE | NOTEBOOK | PIPE | PRIMARY_KEY | PROCEDURE
    | PROJECTION_POLICY | RESOURCE_MONITOR | ROLE | ROW_ACCESS_POLICY | SCHEMA | SECRET | SEMANTIC_VIEW | SEQUENCE
    | SHARE | STAGE | STAGE_FILE | STREAM | TABLE | TAG | TASK | UNIQUE_KEY | USER | VIEW | VOLUME | WAREHOUSE
    | WORKSPACE
  {
    /** `singular_for_grant`: the type that GRANT statements name. */
    function ForGrant(): ObjectType {
      if EXTERNAL_ACCESS_INTEGRATION? then INTEGRATION else this
    }

    /** `is_future_grant_supported`. */
    predicate FutureGrantSupported() {
      || ALERT? || CORTEX_SEARCH_SERVICE? || DYNAMIC_TABLE? || EVENT_TABLE? || EXTERNAL_FUNCTION? || EXTERNAL_TABLE?
      || FILE_FORMAT? || FUNCTION? || HYBRID_TABLE? || ICEBERG_TABLE? || MATERIALIZED_VIEW? || NETWORK_RULE? || PIPE?
      || PROCEDURE? || SCHEMA? || SECRET? || SEMANTIC_VIEW? || SEQUENCE? || STAGE? || STREAM? || TABLE? || TAG?
      || TASK? || VIEW?
    }

    /** `is_overloading_supported`: names carry argument types. */
    predicate Overloaded() {
      FUNCTION? || PROCEDURE?
    }
  }
}
