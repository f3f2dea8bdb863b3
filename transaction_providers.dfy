/** The two Exposed transaction providers a provider choice can build. */
module TransactionProviders {
  datatype ProviderKind = JdbcTransactionProvider | DatabaseTransactionProvider
}
